/**
 * The document store the backend controllers share, and the primitive updates they issue.
 *
 * Collections:
 *  - `clientes`: client documents in insertion order, each with an embedded `citas` array;
 *  - `citas`: the global appointment records, keyed by their `citaId`;
 *  - `horarios`: the per-day slot documents (`dia` to the set `horasDisponibles`) and the
 *    `"config-dias-no-disponibles"` document that booking reads;
 *  - `config_horarios`: the `"config-global"` schedule singleton;
 *  - `servicios` and `usuarios`.
 */
module Almacen {
  import opened Wrappers
  import opened Listas

  /** An entry of a client's embedded `citas` array. */
  datatype CitaEmbebida = CitaEmbebida(
    citaId: string, fecha: string, hora: string, servicio: string, estado: string, fechaRegistro: int)

  /** A record of the global `citas` collection; `correo` is `None` for a stored `null`. */
  datatype Cita = Cita(
    citaId: string, clienteId: string, nombreCliente: string, telefono: string, correo: Option<string>,
    fecha: string, hora: string, servicio: string, estado: string, recordatorioEnviado: bool,
    fechaRegistro: int)

  /**
   * A client document. `oid` is its `_id`; fields a document may lack (`passwordHash`, `activo`,
   * `estado`, `rol`) are `Option`s, and `correo` is `None` when it is missing or `null`.
   */
  datatype Cliente = Cliente(
    oid: string, clienteId: string, nombre: string, correo: Option<string>, telefono: string,
    passwordHash: Option<string>, activo: Option<bool>, estado: Option<string>, rol: Option<string>,
    fechaRegistro: int, citas: seq<CitaEmbebida>)

  /** A service of the catalogue; `Number(x) || 0` already applied to the numbers. */
  datatype Servicio = Servicio(
    oid: string, nombre: string, descripcion: string, duracionMin: real, precio: real, publicado: bool,
    creadoEn: int, actualizadoEn: int)

  /** A document of the legacy `usuarios` collection (plain-text password). */
  datatype Usuario = Usuario(
    oid: string, nombre: string, correo: string, password: string, telefono: Option<string>,
    rol: Option<string>, fechaRegistro: int, citas: seq<CitaEmbebida>)

  /** One day of the weekly schedule the admin page edits. */
  datatype HorarioDia = HorarioDia(dia: string, activo: bool, inicio: string, fin: string)

  /** The `"config-global"` document; a missing field is `None`. */
  datatype ConfigHorarios = ConfigHorarios(
    horariosSemana: Option<seq<HorarioDia>>, diasNoDisponibles: Option<seq<string>>, actualizadoEn: int)

  /**
   * `v || null`: a falsy text is stored as `null` (or, in an update, not written), any other is
   * kept as it is.
   */
  function NuloSiVacio(v: string): (r: Option<string>)
    ensures r.None? <==> v == ""
    ensures r.Some? ==> r.value == v
  {
    if v == "" then None else Some(v)
  }

  class Db {
    var clientes: seq<Cliente>
    var citas: map<string, Cita>
    /** `horarios` day documents: `dia` to `horasDisponibles`. */
    var dias: map<string, set<string>>
    /** `horarios` / `"config-dias-no-disponibles"`: its list when the document exists and holds an array. */
    var bloqueoReservas: Option<seq<string>>
    /** `config_horarios` / `"config-global"`, when it exists. */
    var configHorarios: Option<ConfigHorarios>
    var servicios: seq<Servicio>
    var usuarios: seq<Usuario>

    constructor ()
      ensures clientes == [] && citas == map[] && dias == map[] && bloqueoReservas == None
      ensures configHorarios == None && servicios == [] && usuarios == []
    {
      clientes := [];
      citas := map[];
      dias := map[];
      bloqueoReservas := None;
      configHorarios := None;
      servicios := [];
      usuarios := [];
    }
  }

  // ---------------------------------------------------------------------------------------
  // Slot documents. Neither update is an upsert: a day without a document stays without one.

  /** `updateOne({ dia }, { $pull: { horasDisponibles: hora } })`. */
  function QuitarHora(dias: map<string, set<string>>, dia: string, hora: string): (r: map<string, set<string>>)
    ensures r.Keys == dias.Keys
    ensures dia in dias ==> hora !in r[dia] && r[dia] + {hora} == dias[dia] + {hora}
    ensures forall d | d in dias && d != dia :: r[d] == dias[d]
  {
    if dia in dias then dias[dia := dias[dia] - {hora}] else dias
  }

  /** `updateOne({ dia }, { $addToSet: { horasDisponibles: hora } })`. */
  function DevolverHora(dias: map<string, set<string>>, dia: string, hora: string): (r: map<string, set<string>>)
    ensures r.Keys == dias.Keys
    ensures dia in dias ==> hora in r[dia] && r[dia] - {hora} == dias[dia] - {hora}
    ensures forall d | d in dias && d != dia :: r[d] == dias[d]
  {
    if dia in dias then dias[dia := dias[dia] + {hora}] else dias
  }

  /** Adding a slot back twice is adding it once: a repeated cancel changes nothing more. */
  lemma DevolverHoraIdempotente(dias: map<string, set<string>>, dia: string, hora: string)
    ensures DevolverHora(DevolverHora(dias, dia, hora), dia, hora) == DevolverHora(dias, dia, hora)
  {
  }

  /** Taking a free slot and giving it back restores the day; giving back a taken slot and taking it again does too. */
  lemma QuitarDevolverInversas(dias: map<string, set<string>>, dia: string, hora: string)
    ensures dia in dias && hora in dias[dia] ==> DevolverHora(QuitarHora(dias, dia, hora), dia, hora) == dias
    ensures dia in dias && hora !in dias[dia] ==> QuitarHora(DevolverHora(dias, dia, hora), dia, hora) == dias
  {
    if dia in dias && hora in dias[dia] {
      assert DevolverHora(QuitarHora(dias, dia, hora), dia, hora)[dia] == dias[dia];
    }
    if dia in dias && hora !in dias[dia] {
      assert QuitarHora(DevolverHora(dias, dia, hora), dia, hora)[dia] == dias[dia];
    }
  }

  // ---------------------------------------------------------------------------------------
  // Embedded appointments.

  /** The first entry of `l` with that `citaId`, as the positional `$` operator selects it. */
  function Buscar(l: seq<CitaEmbebida>, id: string): (r: Option<CitaEmbebida>)
    ensures r.Some? ==> r.value in l && r.value.citaId == id
    ensures r.None? <==> forall e | e in l :: e.citaId != id
    decreases |l|
  {
    if l == [] then None
    else if l[0].citaId == id then Some(l[0])
    else Buscar(l[1..], id)
  }

  /** The client matches `{ "citas.citaId": id }`. */
  predicate Tiene(c: Cliente, id: string) {
    Buscar(c.citas, id).Some?
  }

  /** The position of the first client matching `{ "citas.citaId": id }`: the one `updateOne` changes. */
  function Dueno(cs: seq<Cliente>, id: string): (r: Option<nat>)
    ensures r.Some? ==> r.value < |cs| && Tiene(cs[r.value], id) && forall i | 0 <= i < r.value :: !Tiene(cs[i], id)
    ensures r.None? ==> forall i | 0 <= i < |cs| :: !Tiene(cs[i], id)
    decreases |cs|
  {
    if cs == [] then None
    else if Tiene(cs[0], id) then Some(0)
    else match Dueno(cs[1..], id)
      case None => None
      case Some(i) => Some(i + 1)
  }

  /** The first client holding the id is the one `Dueno` names. */
  lemma DuenoEs(cs: seq<Cliente>, id: string, i: nat)
    requires i < |cs| && Tiene(cs[i], id)
    requires forall j | 0 <= j < i :: !Tiene(cs[j], id)
    ensures Dueno(cs, id) == Some(i)
  {
    var r := Dueno(cs, id);
    assert r.Some?;
    assert !(r.value < i);
    assert !(i < r.value);
  }

  /** The fields `actualizarCita`, `cancelarCita` and `finalizarCita` may set; `None` leaves a field alone. */
  datatype Cambio = Cambio(fecha: Option<string>, hora: Option<string>, servicio: Option<string>, estado: Option<string>)

  function CambiarEntrada(e: CitaEmbebida, ch: Cambio): (r: CitaEmbebida)
    ensures r.citaId == e.citaId && r.fechaRegistro == e.fechaRegistro
    ensures r.fecha == ch.fecha.GetOr(e.fecha) && r.hora == ch.hora.GetOr(e.hora)
    ensures r.servicio == ch.servicio.GetOr(e.servicio) && r.estado == ch.estado.GetOr(e.estado)
  {
    e.(fecha := ch.fecha.GetOr(e.fecha), hora := ch.hora.GetOr(e.hora),
       servicio := ch.servicio.GetOr(e.servicio), estado := ch.estado.GetOr(e.estado))
  }

  function CambiarCita(c: Cita, ch: Cambio): (r: Cita)
    ensures r.citaId == c.citaId && r.clienteId == c.clienteId && r.nombreCliente == c.nombreCliente
    ensures r.telefono == c.telefono && r.correo == c.correo
    ensures r.recordatorioEnviado == c.recordatorioEnviado && r.fechaRegistro == c.fechaRegistro
    ensures r.fecha == ch.fecha.GetOr(c.fecha) && r.hora == ch.hora.GetOr(c.hora)
    ensures r.servicio == ch.servicio.GetOr(c.servicio) && r.estado == ch.estado.GetOr(c.estado)
  {
    c.(fecha := ch.fecha.GetOr(c.fecha), hora := ch.hora.GetOr(c.hora),
       servicio := ch.servicio.GetOr(c.servicio), estado := ch.estado.GetOr(c.estado))
  }

  /** `$set` on `citas.$.<campo>`: the first entry of the list with that id. */
  function CambiarEnLista(l: seq<CitaEmbebida>, id: string, ch: Cambio): (r: seq<CitaEmbebida>)
    ensures |r| == |l|
    decreases |l|
  {
    if l == [] then []
    else if l[0].citaId == id then [CambiarEntrada(l[0], ch)] + l[1..]
    else [l[0]] + CambiarEnLista(l[1..], id, ch)
  }

  /** After the positional update the id is found changed, and every other id is found as before. */
  lemma {:induction false} BuscarTrasCambiar(l: seq<CitaEmbebida>, id: string, ch: Cambio, k: string)
    ensures Buscar(CambiarEnLista(l, id, ch), k)
            == if k != id then Buscar(l, k)
               else match Buscar(l, id) case None => None case Some(e) => Some(CambiarEntrada(e, ch))
    decreases |l|
  {
    if l != [] && l[0].citaId != id {
      BuscarTrasCambiar(l[1..], id, ch, k);
      assert CambiarEnLista(l, id, ch)[1..] == CambiarEnLista(l[1..], id, ch);
    } else if l != [] {
      assert ([CambiarEntrada(l[0], ch)] + l[1..])[1..] == l[1..];
    }
  }

  /** `$pull: { citas: { citaId: id } }` inside one client: every entry with that id goes. */
  function SinId(l: seq<CitaEmbebida>, id: string): (r: seq<CitaEmbebida>)
    ensures forall e | e in r :: e in l && e.citaId != id
    ensures forall e | e in l && e.citaId != id :: e in r
    decreases |l|
  {
    if l == [] then []
    else if l[0].citaId == id then SinId(l[1..], id)
    else [l[0]] + SinId(l[1..], id)
  }

  lemma {:induction false} BuscarTrasQuitar(l: seq<CitaEmbebida>, id: string, k: string)
    ensures Buscar(SinId(l, id), k) == if k == id then None else Buscar(l, k)
    decreases |l|
  {
    if l != [] {
      BuscarTrasQuitar(l[1..], id, k);
      if l[0].citaId != id {
        assert SinId(l, id)[1..] == SinId(l[1..], id);
      }
    }
  }

  /** `$push` at the end of the array: ids already present are still found at their first entry. */
  lemma {:induction false} BuscarTrasAgregar(l: seq<CitaEmbebida>, e: CitaEmbebida, k: string)
    ensures Buscar(l + [e], k) == if Buscar(l, k).Some? then Buscar(l, k)
                                  else if e.citaId == k then Some(e) else None
    decreases |l|
  {
    if l == [] {
      assert [] + [e] == [e];
    } else {
      assert (l + [e])[1..] == l[1..] + [e];
      BuscarTrasAgregar(l[1..], e, k);
    }
  }

  /** `updateOne({ "citas.citaId": id }, { $set: { "citas.$.<campo>": ... } })`. */
  function CambiarEmbebida(cs: seq<Cliente>, id: string, ch: Cambio): (r: seq<Cliente>)
    ensures |r| == |cs|
    ensures forall i | 0 <= i < |cs| :: r[i].(citas := cs[i].citas) == cs[i]
    ensures forall i | 0 <= i < |cs| && Dueno(cs, id) != Some(i) :: r[i] == cs[i]
  {
    match Dueno(cs, id)
    case None => cs
    case Some(i) => cs[i := cs[i].(citas := CambiarEnLista(cs[i].citas, id, ch))]
  }

  /** `updateOne({ "citas.citaId": id }, { $pull: { citas: { citaId: id } } })`. */
  function QuitarEmbebida(cs: seq<Cliente>, id: string): (r: seq<Cliente>)
    ensures |r| == |cs|
    ensures forall i | 0 <= i < |cs| :: r[i].(citas := cs[i].citas) == cs[i]
    ensures forall i | 0 <= i < |cs| && Dueno(cs, id) != Some(i) :: r[i] == cs[i]
  {
    match Dueno(cs, id)
    case None => cs
    case Some(i) => cs[i := cs[i].(citas := SinId(cs[i].citas, id))]
  }

  // ---------------------------------------------------------------------------------------
  // The mirror invariant: every global record has its copy in the client that holds its id.

  /** The embedded copy agrees with the global record on the fields both carry. */
  predicate Coincide(e: CitaEmbebida, c: Cita) {
    e.citaId == c.citaId && e.fecha == c.fecha && e.hora == c.hora && e.servicio == c.servicio && e.estado == c.estado
  }

  /** The first client holding `c.citaId` is `c`'s client, and its first entry with that id mirrors `c`. */
  ghost predicate Reflejada(cs: seq<Cliente>, c: Cita) {
    match Dueno(cs, c.citaId)
    case None => false
    case Some(i) => cs[i].clienteId == c.clienteId && Coincide(Buscar(cs[i].citas, c.citaId).value, c)
  }

  ghost predicate Coherente(cs: seq<Cliente>, citas: map<string, Cita>) {
    (forall k | k in citas :: citas[k].citaId == k && Reflejada(cs, citas[k]))
    && (forall i | 0 <= i < |cs| :: cs[i].clienteId != "")
  }

  /**
   * A copy stays reflected in a client list whose old positions keep their `clienteId` and show
   * the same first entry for its id, with any new clients appended at the end.
   */
  lemma ReflejadaEstable(cs: seq<Cliente>, cs': seq<Cliente>, c: Cita)
    requires Reflejada(cs, c)
    requires |cs| <= |cs'|
    requires forall i | 0 <= i < |cs| :: cs'[i].clienteId == cs[i].clienteId
    requires forall i | 0 <= i < |cs| :: Buscar(cs'[i].citas, c.citaId) == Buscar(cs[i].citas, c.citaId)
    ensures Reflejada(cs', c)
  {
    var o := Dueno(cs, c.citaId).value;
    DuenoEs(cs', c.citaId, o);
  }

  /** The mirror survives any rewrite of the clients that keeps each one's `clienteId` and its entries. */
  lemma CoherenteEstable(cs: seq<Cliente>, cs': seq<Cliente>, citas: map<string, Cita>)
    requires Coherente(cs, citas) && |cs'| == |cs|
    requires forall i | 0 <= i < |cs| :: cs'[i].clienteId == cs[i].clienteId && cs'[i].citas == cs[i].citas
    ensures Coherente(cs', citas)
  {
    forall k | k in citas ensures Reflejada(cs', citas[k]) {
      ReflejadaEstable(cs, cs', citas[k]);
    }
  }

  /** The same after the client at position `x`, which does not hold the id's record, is removed. */
  lemma ReflejadaTrasQuitarCliente(cs: seq<Cliente>, x: nat, c: Cita)
    requires Reflejada(cs, c) && x < |cs|
    requires cs[x].clienteId != c.clienteId
    ensures Reflejada(cs[..x] + cs[x + 1..], c)
  {
    var o := Dueno(cs, c.citaId).value;
    var cs' := cs[..x] + cs[x + 1..];
    assert o != x;
    if o < x {
      assert cs'[o] == cs[o];
      DuenoEs(cs', c.citaId, o);
    } else {
      assert cs'[o - 1] == cs[o];
      forall j | 0 <= j < o - 1 ensures !Tiene(cs'[j], c.citaId) {
        if j < x {
          assert cs'[j] == cs[j];
        } else {
          assert cs'[j] == cs[j + 1];
        }
      }
      DuenoEs(cs', c.citaId, o - 1);
    }
  }
}
