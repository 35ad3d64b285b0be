/**
 * The appointment lifecycle of `citasController.js`: create, list, re-schedule, cancel,
 * finalize and delete, each a sequence of writes over the shared store.
 */
module Citas {
  import opened Wrappers
  import opened Listas
  import opened Orden
  import opened Almacen

  const ACTIVA := "activa"
  const CANCELADA := "cancelada"
  const FINALIZADA := "finalizada"

  /** The request body of `POST /api/citas`; `""` stands for a missing or falsy value. */
  datatype Reserva = Reserva(
    fecha: string, hora: string, servicioNombre: string, nombre: string, telefono: string, correo: string)

  predicate Completa(s: Reserva) {
    s.fecha != "" && s.hora != "" && s.servicioNombre != "" && s.nombre != "" && s.telefono != ""
  }

  /** `diasNoDisponibles.includes(fecha)`, where a missing document or a non-array value is `[]`. */
  predicate DiaBloqueado(bloqueo: Option<seq<string>>, fecha: string) {
    bloqueo.Some? && fecha in bloqueo.value
  }

  function TelefonoDe(c: Cliente): string {
    c.telefono
  }

  /**
   * The client upsert keyed on `telefono`: the first client with that phone gets the request's
   * `nombre` and `correo || null`; when there is none, a client with a fresh `clienteId`, the
   * request's data and no appointments is appended.
   */
  function UpsertCliente(cs: seq<Cliente>, s: Reserva, oid: string, clienteId: string, ahora: int): (r: seq<Cliente>)
    ensures PrimeroCon(r, TelefonoDe, s.telefono).Some?
    ensures |r| == if PrimeroCon(cs, TelefonoDe, s.telefono).Some? then |cs| else |cs| + 1
    ensures forall i | 0 <= i < |cs| ::
              r[i].oid == cs[i].oid && r[i].clienteId == cs[i].clienteId && r[i].telefono == cs[i].telefono
              && r[i].citas == cs[i].citas && r[i].fechaRegistro == cs[i].fechaRegistro
              && r[i].passwordHash == cs[i].passwordHash && r[i].activo == cs[i].activo && r[i].rol == cs[i].rol
    ensures var t := PrimeroCon(r, TelefonoDe, s.telefono).value;
            r[t].nombre == s.nombre && r[t].correo == NuloSiVacio(s.correo)
            && (forall i | 0 <= i < |cs| && i != t :: r[i] == cs[i])
            && (match PrimeroCon(cs, TelefonoDe, s.telefono)
                case Some(i) => t == i
                case None => t == |cs| && r[t].clienteId == clienteId && r[t].citas == [] && r[t].fechaRegistro == ahora)
  {
    match PrimeroCon(cs, TelefonoDe, s.telefono)
    case Some(i) =>
      var r := cs[i := cs[i].(nombre := s.nombre, correo := NuloSiVacio(s.correo))];
      PrimeroConEs(r, TelefonoDe, s.telefono, i);
      r
    case None =>
      var r := cs + [Cliente(oid, clienteId, s.nombre, NuloSiVacio(s.correo), s.telefono, None, None, None, None, ahora, [])];
      PrimeroConEs(r, TelefonoDe, s.telefono, |cs|);
      r
  }

  /** The entry `$push`ed into the client's `citas`. */
  function EntradaNueva(s: Reserva, citaId: string, ahora: int): CitaEmbebida {
    CitaEmbebida(citaId, s.fecha, s.hora, s.servicioNombre, ACTIVA, ahora)
  }

  /** The client list after the upsert and the `$push` into the client `findOne({ telefono })` returns. */
  function Reservar(cs: seq<Cliente>, s: Reserva, citaId: string, oid: string, clienteId: string, ahora: int): seq<Cliente> {
    var cs1 := UpsertCliente(cs, s, oid, clienteId, ahora);
    var t := PrimeroCon(cs1, TelefonoDe, s.telefono).value;
    cs1[t := cs1[t].(citas := cs1[t].citas + [EntradaNueva(s, citaId, ahora)])]
  }

  /** The record `insertOne` adds to the global collection. */
  function RegistroNuevo(cs: seq<Cliente>, s: Reserva, citaId: string, oid: string, clienteId: string, ahora: int): Cita {
    var cs1 := UpsertCliente(cs, s, oid, clienteId, ahora);
    var c := cs1[PrimeroCon(cs1, TelefonoDe, s.telefono).value];
    Cita(citaId, c.clienteId, c.nombre, c.telefono, NuloSiVacio(s.correo), s.fecha, s.hora, s.servicioNombre,
         ACTIVA, false, ahora)
  }

  /** `POST /api/citas` (crearCita). */
  method CrearCita(db: Db, s: Reserva, citaId: string, oid: string, clienteId: string, ahora: int)
    returns (status: int)
    modifies db`clientes, db`citas, db`dias
    ensures !Completa(s) ==> status == 400 && unchanged(db)
    ensures Completa(s) && DiaBloqueado(db.bloqueoReservas, s.fecha) ==> status == 400 && unchanged(db)
    ensures Completa(s) && !DiaBloqueado(db.bloqueoReservas, s.fecha) ==>
              status == 201
              && db.clientes == Reservar(old(db.clientes), s, citaId, oid, clienteId, ahora)
              && db.citas == old(db.citas)[citaId := RegistroNuevo(old(db.clientes), s, citaId, oid, clienteId, ahora)]
              && db.dias == QuitarHora(old(db.dias), s.fecha, s.hora)
  {
    if !Completa(s) {
      return 400;
    }
    if DiaBloqueado(db.bloqueoReservas, s.fecha) {
      return 400;
    }
    var antes := db.clientes;
    db.clientes := UpsertCliente(db.clientes, s, oid, clienteId, ahora);
    var t := PrimeroCon(db.clientes, TelefonoDe, s.telefono).value;
    var cliente := db.clientes[t];
    db.clientes := db.clientes[t := cliente.(citas := cliente.citas + [EntradaNueva(s, citaId, ahora)])];
    db.citas := db.citas[citaId := Cita(citaId, cliente.clienteId, cliente.nombre, cliente.telefono,
                                        NuloSiVacio(s.correo), s.fecha, s.hora, s.servicioNombre, ACTIVA, false, ahora)];
    db.dias := QuitarHora(db.dias, s.fecha, s.hora);
    return 201;
  }

  /** The id is unused: no global record and no embedded entry carries it. */
  ghost predicate IdLibre(cs: seq<Cliente>, citas: map<string, Cita>, citaId: string) {
    citaId !in citas && forall i | 0 <= i < |cs| :: !Tiene(cs[i], citaId)
  }

  /**
   * Replacing one client's entry list by one that shows the same first entry for `c`'s id
   * keeps `c` reflected.
   */
  lemma ReflejadaTrasReemplazarLista(cs: seq<Cliente>, t: nat, l: seq<CitaEmbebida>, c: Cita)
    requires Reflejada(cs, c) && t < |cs|
    requires Buscar(l, c.citaId) == Buscar(cs[t].citas, c.citaId)
    ensures Reflejada(cs[t := cs[t].(citas := l)], c)
  {
    ReflejadaEstable(cs, cs[t := cs[t].(citas := l)], c);
  }

  /**
   * A booking with a fresh id keeps the store coherent: the new entry and the new record share
   * id, fecha, hora, servicio and estado "activa", and the entry sits in the record's client.
   */
  lemma ReservarPreservaCoherencia(cs: seq<Cliente>, citas: map<string, Cita>, s: Reserva,
                                   citaId: string, oid: string, clienteId: string, ahora: int)
    requires Coherente(cs, citas) && IdLibre(cs, citas, citaId) && clienteId != ""
    ensures Coherente(Reservar(cs, s, citaId, oid, clienteId, ahora),
                      citas[citaId := RegistroNuevo(cs, s, citaId, oid, clienteId, ahora)])
  {
    var cs2 := Reservar(cs, s, citaId, oid, clienteId, ahora);
    var citas' := citas[citaId := RegistroNuevo(cs, s, citaId, oid, clienteId, ahora)];
    forall k | k in citas' ensures citas'[k].citaId == k && Reflejada(cs2, citas'[k]) {
      if k != citaId {
        ReservarReflejaExistente(cs, s, citaId, oid, clienteId, ahora, citas[k]);
      } else {
        ReservarReflejaNueva(cs, s, citaId, oid, clienteId, ahora);
      }
    }
    ReservarConservaClientes(cs, s, citaId, oid, clienteId, ahora);
  }

  /** Every client of the booked list has a `clienteId`, the appended one included. */
  lemma ReservarConservaClientes(cs: seq<Cliente>, s: Reserva, citaId: string, oid: string, clienteId: string, ahora: int)
    requires (forall i | 0 <= i < |cs| :: cs[i].clienteId != "") && clienteId != ""
    ensures forall i | 0 <= i < |Reservar(cs, s, citaId, oid, clienteId, ahora)| ::
              Reservar(cs, s, citaId, oid, clienteId, ahora)[i].clienteId != ""
  {
    var cs1 := UpsertCliente(cs, s, oid, clienteId, ahora);
    forall i | 0 <= i < |cs1| ensures cs1[i].clienteId != "" {
      if i >= |cs| {
        assert PrimeroCon(cs, TelefonoDe, s.telefono).None?;
      }
    }
  }

  /** A record already in the store stays reflected after a booking under another id. */
  lemma ReservarReflejaExistente(cs: seq<Cliente>, s: Reserva, citaId: string, oid: string, clienteId: string, ahora: int,
                                 c: Cita)
    requires Reflejada(cs, c) && c.citaId != citaId
    ensures Reflejada(Reservar(cs, s, citaId, oid, clienteId, ahora), c)
  {
    var cs1 := UpsertCliente(cs, s, oid, clienteId, ahora);
    var t := PrimeroCon(cs1, TelefonoDe, s.telefono).value;
    var e := EntradaNueva(s, citaId, ahora);
    ReflejadaEstable(cs, cs1, c);
    BuscarTrasAgregar(cs1[t].citas, e, c.citaId);
    ReflejadaTrasReemplazarLista(cs1, t, cs1[t].citas + [e], c);
  }

  /** The new record is reflected by the entry pushed into its client. */
  lemma ReservarReflejaNueva(cs: seq<Cliente>, s: Reserva, citaId: string, oid: string, clienteId: string, ahora: int)
    requires forall i | 0 <= i < |cs| :: !Tiene(cs[i], citaId)
    ensures Reflejada(Reservar(cs, s, citaId, oid, clienteId, ahora), RegistroNuevo(cs, s, citaId, oid, clienteId, ahora))
  {
    var cs1 := UpsertCliente(cs, s, oid, clienteId, ahora);
    var t := PrimeroCon(cs1, TelefonoDe, s.telefono).value;
    var e := EntradaNueva(s, citaId, ahora);
    var cs2 := Reservar(cs, s, citaId, oid, clienteId, ahora);
    assert cs2 == cs1[t := cs1[t].(citas := cs1[t].citas + [e])];
    NuevoSinId(cs, s, citaId, oid, clienteId, ahora);
    BuscarTrasAgregar(cs1[t].citas, e, citaId);
    forall j | 0 <= j < t ensures !Tiene(cs2[j], citaId) {
      assert cs2[j] == cs1[j];
    }
    DuenoEs(cs2, citaId, t);
  }

  /** After the client upsert a fresh id is still held by no client. */
  lemma NuevoSinId(cs: seq<Cliente>, s: Reserva, citaId: string, oid: string, clienteId: string, ahora: int)
    requires forall i | 0 <= i < |cs| :: !Tiene(cs[i], citaId)
    ensures forall i | 0 <= i < |UpsertCliente(cs, s, oid, clienteId, ahora)| ::
              !Tiene(UpsertCliente(cs, s, oid, clienteId, ahora)[i], citaId)
  {
    var cs1 := UpsertCliente(cs, s, oid, clienteId, ahora);
    forall i | 0 <= i < |cs1| ensures !Tiene(cs1[i], citaId) {
      if i < |cs| {
        assert cs1[i].citas == cs[i].citas;
      }
    }
  }

  /** All embedded entries of all clients, as a multiset. */
  function Entradas(cs: seq<Cliente>): multiset<CitaEmbebida>
    decreases |cs|
  {
    if cs == [] then multiset{} else multiset(cs[0].citas) + Entradas(cs[1..])
  }

  lemma {:induction false} EntradasAlCambiar(cs: seq<Cliente>, i: nat, c: Cliente)
    requires i < |cs|
    ensures Entradas(cs[i := c]) + multiset(cs[i].citas) == Entradas(cs) + multiset(c.citas)
    decreases |cs|
  {
    if i > 0 {
      assert cs[i := c][1..] == cs[1..][i - 1 := c];
      EntradasAlCambiar(cs[1..], i - 1, c);
      assert cs[1..][i - 1] == cs[i] && cs[i := c][0] == cs[0];
      var cabeza := multiset(cs[0].citas);
      calc {
        Entradas(cs[i := c]) + multiset(cs[i].citas);
        (cabeza + Entradas(cs[1..][i - 1 := c])) + multiset(cs[i].citas);
        cabeza + (Entradas(cs[1..][i - 1 := c]) + multiset(cs[1..][i - 1].citas));
        cabeza + (Entradas(cs[1..]) + multiset(c.citas));
        (cabeza + Entradas(cs[1..])) + multiset(c.citas);
        Entradas(cs) + multiset(c.citas);
      }
    } else {
      assert cs[i := c][1..] == cs[1..];
    }
  }

  lemma {:induction false} EntradasAlAgregar(cs: seq<Cliente>, c: Cliente)
    ensures Entradas(cs + [c]) == Entradas(cs) + multiset(c.citas)
    decreases |cs|
  {
    if cs == [] {
      assert [] + [c] == [c];
    } else {
      assert (cs + [c])[1..] == cs[1..] + [c];
      EntradasAlAgregar(cs[1..], c);
    }
  }

  /** A booking adds exactly one embedded entry across all clients, and it is the new one. */
  lemma ReservarAgregaUnaEntrada(cs: seq<Cliente>, s: Reserva, citaId: string, oid: string, clienteId: string, ahora: int)
    ensures Entradas(Reservar(cs, s, citaId, oid, clienteId, ahora)) == Entradas(cs) + multiset{EntradaNueva(s, citaId, ahora)}
  {
    var cs1 := UpsertCliente(cs, s, oid, clienteId, ahora);
    var t := PrimeroCon(cs1, TelefonoDe, s.telefono).value;
    var e := EntradaNueva(s, citaId, ahora);
    assert Entradas(cs1) == Entradas(cs) by {
      match PrimeroCon(cs, TelefonoDe, s.telefono)
      case Some(i) =>
        assert cs1 == cs[i := cs1[i]];
        assert cs1[i].citas == cs[i].citas;
        EntradasAlCambiar(cs, i, cs1[i]);
        CancelarMultiset(Entradas(cs1), Entradas(cs), multiset(cs[i].citas));
      case None =>
        assert t == |cs| && cs1[t].citas == [];
        assert cs1 == cs + [cs1[t]];
        EntradasAlAgregar(cs, cs1[t]);
    }
    assert Reservar(cs, s, citaId, oid, clienteId, ahora) == cs1[t := cs1[t].(citas := cs1[t].citas + [e])];
    EntradasAlCambiar(cs1, t, cs1[t].(citas := cs1[t].citas + [e]));
    assert multiset(cs1[t].citas + [e]) == multiset(cs1[t].citas) + multiset{e};
    CancelarMultiset(Entradas(Reservar(cs, s, citaId, oid, clienteId, ahora)), Entradas(cs1) + multiset{e},
                     multiset(cs1[t].citas));
  }

  lemma CancelarMultiset<T>(a: multiset<T>, b: multiset<T>, m: multiset<T>)
    requires a + m == b + m
    ensures a == b
  {
    forall x ensures a[x] == b[x] {
      assert (a + m)[x] == (b + m)[x];
    }
  }

  /** The fields of `setCita` / `setCliente` that `actualizarCita` writes: only the truthy ones. */
  function CambioDe(fecha: string, hora: string, servicioNombre: string): Cambio {
    Cambio(NuloSiVacio(fecha), NuloSiVacio(hora), NuloSiVacio(servicioNombre), None)
  }

  /**
   * The slot step of a re-schedule: first the old hora goes back to the old day, then the new
   * hora is taken from the new day.
   */
  function Reagendar(dias: map<string, set<string>>, fechaAnt: string, horaAnt: string,
                     fechaNueva: string, horaNueva: string): map<string, set<string>> {
    QuitarHora(DevolverHora(dias, fechaAnt, horaAnt), fechaNueva, horaNueva)
  }

  /** `PUT /api/citas/:citaId` (actualizarCita). */
  method ActualizarCita(db: Db, citaId: string, fecha: string, hora: string, servicioNombre: string)
    returns (status: int)
    modifies db`clientes, db`citas, db`dias
    ensures citaId == "" ==> status == 400 && unchanged(db)
    ensures citaId != "" && citaId !in old(db.citas) ==> status == 404 && unchanged(db)
    ensures citaId != "" && citaId in old(db.citas) ==>
              var orig := old(db.citas)[citaId];
              var ch := CambioDe(fecha, hora, servicioNombre);
              status == 200
              && db.citas == old(db.citas)[citaId := CambiarCita(orig, ch)]
              && db.clientes == CambiarEmbebida(old(db.clientes), citaId, ch)
              && db.dias == if fecha != "" || hora != "" then
                              Reagendar(old(db.dias), orig.fecha, orig.hora,
                                        if fecha != "" then fecha else orig.fecha,
                                        if hora != "" then hora else orig.hora)
                            else old(db.dias)
  {
    if citaId == "" {
      return 400;
    }
    if citaId !in db.citas {
      return 404;
    }
    var original := db.citas[citaId];
    var ch := CambioDe(fecha, hora, servicioNombre);
    if fecha != "" || hora != "" || servicioNombre != "" {
      db.citas := db.citas[citaId := CambiarCita(original, ch)];
      db.clientes := CambiarEmbebida(db.clientes, citaId, ch);
    } else {
      assert CambiarCita(original, ch) == original;
      assert db.citas[citaId := original] == db.citas;
      CambioVacioNoCambiaNada(db.clientes, citaId);
    }
    if fecha != "" || hora != "" {
      var nuevaFecha := if fecha != "" then fecha else original.fecha;
      var nuevaHora := if hora != "" then hora else original.hora;
      db.dias := DevolverHora(db.dias, original.fecha, original.hora);
      db.dias := QuitarHora(db.dias, nuevaFecha, nuevaHora);
    }
    return 200;
  }

  lemma {:induction false} CambiarEnListaVacio(l: seq<CitaEmbebida>, id: string)
    ensures CambiarEnLista(l, id, Cambio(None, None, None, None)) == l
    decreases |l|
  {
    if l != [] {
      CambiarEnListaVacio(l[1..], id);
    }
  }

  /** An update that sets no field changes no client. */
  lemma CambioVacioNoCambiaNada(cs: seq<Cliente>, id: string)
    ensures CambiarEmbebida(cs, id, Cambio(None, None, None, None)) == cs
  {
    match Dueno(cs, id)
    case None =>
    case Some(i) =>
      CambiarEnListaVacio(cs[i].citas, id);
      assert cs[i].(citas := cs[i].citas) == cs[i];
  }

  /**
   * Applying one change to the global record and, positionally, to its embedded copy keeps the
   * store coherent: the two copies stay identical on the fields they share.
   */
  lemma CambiarPreservaCoherencia(cs: seq<Cliente>, citas: map<string, Cita>, id: string, ch: Cambio)
    requires Coherente(cs, citas) && id in citas
    ensures Coherente(CambiarEmbebida(cs, id, ch), citas[id := CambiarCita(citas[id], ch)])
  {
    var cs' := CambiarEmbebida(cs, id, ch);
    var citas' := citas[id := CambiarCita(citas[id], ch)];
    forall k | k in citas' ensures citas'[k].citaId == k && Reflejada(cs', citas'[k]) {
      if k != id {
        CambiarReflejaOtra(cs, id, ch, citas[k]);
      } else {
        CambiarReflejaPropia(cs, id, ch, citas[id]);
      }
    }
    forall i | 0 <= i < |cs'| ensures cs'[i].clienteId != "" {
      assert cs'[i].clienteId == cs[i].clienteId;
    }
  }

  /** A record with another id stays reflected after the positional update of `id`. */
  lemma CambiarReflejaOtra(cs: seq<Cliente>, id: string, ch: Cambio, c: Cita)
    requires Reflejada(cs, c) && c.citaId != id && Dueno(cs, id).Some?
    ensures Reflejada(CambiarEmbebida(cs, id, ch), c)
  {
    var o := Dueno(cs, id).value;
    var cs' := CambiarEmbebida(cs, id, ch);
    assert cs' == cs[o := cs[o].(citas := CambiarEnLista(cs[o].citas, id, ch))];
    BuscarTrasCambiar(cs[o].citas, id, ch, c.citaId);
    forall i | 0 <= i < |cs| ensures Buscar(cs'[i].citas, c.citaId) == Buscar(cs[i].citas, c.citaId) {
    }
    ReflejadaEstable(cs, cs', c);
  }

  /** The changed record is reflected by the changed entry of the same client. */
  lemma CambiarReflejaPropia(cs: seq<Cliente>, id: string, ch: Cambio, c: Cita)
    requires Reflejada(cs, c) && c.citaId == id
    ensures Reflejada(CambiarEmbebida(cs, id, ch), CambiarCita(c, ch))
  {
    var o := Dueno(cs, id).value;
    var cs' := CambiarEmbebida(cs, id, ch);
    assert cs' == cs[o := cs[o].(citas := CambiarEnLista(cs[o].citas, id, ch))];
    BuscarTrasCambiar(cs[o].citas, id, ch, id);
    forall j | 0 <= j < o ensures !Tiene(cs'[j], id) {
      assert cs'[j] == cs[j];
    }
    DuenoEs(cs', id, o);
  }

  /** Re-scheduling onto the very same slot leaves it taken. */
  lemma ReagendarMismoHueco(dias: map<string, set<string>>, fecha: string, hora: string)
    requires fecha in dias
    ensures hora !in Reagendar(dias, fecha, hora, fecha, hora)[fecha]
    ensures Reagendar(dias, fecha, hora, fecha, hora)[fecha] == dias[fecha] - {hora}
  {
  }

  /** A re-schedule frees the old slot and takes the new one, on days that have a document. */
  lemma ReagendarMueveLaReserva(dias: map<string, set<string>>, f1: string, h1: string, f2: string, h2: string)
    requires f1 in dias && f2 in dias && (f1, h1) != (f2, h2)
    ensures h1 in Reagendar(dias, f1, h1, f2, h2)[f1]
    ensures h2 !in Reagendar(dias, f1, h1, f2, h2)[f2]
    ensures forall d | d in dias && d != f1 && d != f2 :: Reagendar(dias, f1, h1, f2, h2)[d] == dias[d]
  {
  }

  /**
   * Moving a booked slot to a free one and back restores every day: re-scheduling is undone by
   * re-scheduling in the other direction.
   */
  lemma ReagendarIdaYVuelta(dias: map<string, set<string>>, f1: string, h1: string, f2: string, h2: string)
    requires f1 in dias && f2 in dias && (f1, h1) != (f2, h2)
    requires h1 !in dias[f1] && h2 in dias[f2]
    ensures Reagendar(Reagendar(dias, f1, h1, f2, h2), f2, h2, f1, h1) == dias
  {
    var r := Reagendar(Reagendar(dias, f1, h1, f2, h2), f2, h2, f1, h1);
    assert r.Keys == dias.Keys;
    forall d | d in dias ensures r[d] == dias[d] {
      if d == f1 || d == f2 {
        assert r[d] == dias[d];
      }
    }
  }

  /** The change `cancelarCita` and `finalizarCita` write on both copies. */
  function CambioEstado(estado: string): Cambio {
    Cambio(None, None, None, Some(estado))
  }

  /** `PATCH /api/citas/:citaId/cancelar` (cancelarCita); the current estado is not checked. */
  method CancelarCita(db: Db, citaId: string) returns (status: int)
    modifies db`clientes, db`citas, db`dias
    ensures citaId == "" ==> status == 400 && unchanged(db)
    ensures citaId != "" && citaId !in old(db.citas) ==> status == 404 && unchanged(db)
    ensures citaId != "" && citaId in old(db.citas) ==>
              var c := old(db.citas)[citaId];
              status == 200
              && db.citas == old(db.citas)[citaId := c.(estado := CANCELADA)]
              && db.clientes == CambiarEmbebida(old(db.clientes), citaId, CambioEstado(CANCELADA))
              && db.dias == DevolverHora(old(db.dias), c.fecha, c.hora)
  {
    if citaId == "" {
      return 400;
    }
    if citaId !in db.citas {
      return 404;
    }
    var cita := db.citas[citaId];
    db.citas := db.citas[citaId := cita.(estado := CANCELADA)];
    db.clientes := CambiarEmbebida(db.clientes, citaId, CambioEstado(CANCELADA));
    db.dias := DevolverHora(db.dias, cita.fecha, cita.hora);
    return 200;
  }

  /** `PATCH /api/citas/:citaId/finalizar` (finalizarCita): both copies say "finalizada"; slots are not touched. */
  method FinalizarCita(db: Db, citaId: string) returns (status: int)
    modifies db`clientes, db`citas
    ensures db.dias == old(db.dias)
    ensures citaId == "" ==> status == 400 && unchanged(db)
    ensures citaId != "" && citaId !in old(db.citas) ==> status == 404 && unchanged(db)
    ensures citaId != "" && citaId in old(db.citas) ==>
              status == 200
              && db.citas == old(db.citas)[citaId := old(db.citas)[citaId].(estado := FINALIZADA)]
              && db.clientes == CambiarEmbebida(old(db.clientes), citaId, CambioEstado(FINALIZADA))
  {
    if citaId == "" {
      return 400;
    }
    if citaId !in db.citas {
      return 404;
    }
    var cita := db.citas[citaId];
    db.citas := db.citas[citaId := cita.(estado := FINALIZADA)];
    db.clientes := CambiarEmbebida(db.clientes, citaId, CambioEstado(FINALIZADA));
    return 200;
  }

  /** Cancelling or finalizing keeps the store coherent, with the new estado on both copies. */
  lemma CambiarEstadoPreservaCoherencia(cs: seq<Cliente>, citas: map<string, Cita>, id: string, estado: string)
    requires Coherente(cs, citas) && id in citas
    ensures Coherente(CambiarEmbebida(cs, id, CambioEstado(estado)), citas[id := citas[id].(estado := estado)])
    ensures Reflejada(CambiarEmbebida(cs, id, CambioEstado(estado)), citas[id].(estado := estado))
  {
    var nueva := citas[id].(estado := estado);
    assert CambiarCita(citas[id], CambioEstado(estado)) == nueva;
    CambiarPreservaCoherencia(cs, citas, id, CambioEstado(estado));
    assert citas[id := nueva][id] == nueva;
  }

  /** Cancelling twice leaves the same state as cancelling once. */
  lemma CancelarIdempotente(cs: seq<Cliente>, citas: map<string, Cita>, dias: map<string, set<string>>, id: string)
    requires id in citas
    ensures var c := citas[id];
            var citas1 := citas[id := c.(estado := CANCELADA)];
            var dias1 := DevolverHora(dias, c.fecha, c.hora);
            citas1[id := citas1[id].(estado := CANCELADA)] == citas1
            && DevolverHora(dias1, citas1[id].fecha, citas1[id].hora) == dias1
  {
    var c := citas[id];
    DevolverHoraIdempotente(dias, c.fecha, c.hora);
  }

  /** `DELETE /api/citas/:citaId` (eliminarCita). */
  method EliminarCita(db: Db, citaId: string) returns (status: int)
    modifies db`clientes, db`citas, db`dias
    ensures citaId == "" ==> status == 400 && unchanged(db)
    ensures citaId != "" && citaId !in old(db.citas) ==> status == 404 && unchanged(db)
    ensures citaId != "" && citaId in old(db.citas) ==>
              var c := old(db.citas)[citaId];
              status == 200
              && db.citas == old(db.citas) - {citaId}
              && db.clientes == QuitarEmbebida(old(db.clientes), citaId)
              && db.dias == DevolverHora(old(db.dias), c.fecha, c.hora)
  {
    if citaId == "" {
      return 400;
    }
    if citaId !in db.citas {
      return 404;
    }
    var cita := db.citas[citaId];
    db.citas := db.citas - {citaId};
    db.clientes := QuitarEmbebida(db.clientes, citaId);
    db.dias := DevolverHora(db.dias, cita.fecha, cita.hora);
    return 200;
  }

  /** Deleting keeps the store coherent; afterwards the client that held the id holds it no more. */
  lemma EliminarPreservaCoherencia(cs: seq<Cliente>, citas: map<string, Cita>, id: string)
    requires Coherente(cs, citas) && id in citas
    ensures Coherente(QuitarEmbebida(cs, id), citas - {id})
    ensures !Tiene(QuitarEmbebida(cs, id)[Dueno(cs, id).value], id)
  {
    var o := Dueno(cs, id).value;
    var l := SinId(cs[o].citas, id);
    assert QuitarEmbebida(cs, id) == cs[o := cs[o].(citas := l)];
    QuitarListaCoherente(cs, citas, id, o);
    BuscarTrasQuitar(cs[o].citas, id, id);
  }

  /** Dropping the id from the list of client `o` leaves every other record reflected. */
  lemma QuitarListaCoherente(cs: seq<Cliente>, citas: map<string, Cita>, id: string, o: nat)
    requires Coherente(cs, citas) && o < |cs|
    ensures Coherente(cs[o := cs[o].(citas := SinId(cs[o].citas, id))], citas - {id})
  {
    var l := SinId(cs[o].citas, id);
    var cs' := cs[o := cs[o].(citas := l)];
    forall k | k in citas - {id} ensures Reflejada(cs', citas[k]) {
      BuscarTrasQuitar(cs[o].citas, id, citas[k].citaId);
      ReflejadaTrasReemplazarLista(cs, o, l, citas[k]);
    }
    assert forall i | 0 <= i < |cs'| :: cs'[i].clienteId == cs[i].clienteId;
  }

  // ---------------------------------------------------------------------------------------
  // Listings, `sort({ fecha: 1, hora: 1 })`.

  ghost predicate Ordenadas(s: seq<Cita>) {
    forall i, j | 0 <= i < j < |s| :: AntesOIgual(s[i].fecha, s[i].hora, s[j].fecha, s[j].hora)
  }

  function InsertarCita(x: Cita, s: seq<Cita>): (r: seq<Cita>)
    requires Ordenadas(s)
    ensures Ordenadas(r)
    ensures multiset(r) == multiset(s) + multiset{x}
    ensures |r| == |s| + 1
    ensures forall k | 0 <= k < |r| :: r[k] == x || r[k] in s
    ensures x in r && forall y | y in s :: y in r
    decreases |s|
  {
    if s == [] || AntesOIgual(x.fecha, x.hora, s[0].fecha, s[0].hora) then
      AlFrente(x, s);
      [x] + s
    else
      AntesOIgualTotal(x.fecha, x.hora, s[0].fecha, s[0].hora);
      var t := InsertarCita(x, s[1..]);
      assert s == [s[0]] + s[1..];
      TrasLaCabeza(x, s, t);
      [s[0]] + t
  }

  /** A record no later than the first of an ordered list can go in front of it. */
  lemma AlFrente(x: Cita, s: seq<Cita>)
    requires Ordenadas(s) && (s == [] || AntesOIgual(x.fecha, x.hora, s[0].fecha, s[0].hora))
    ensures Ordenadas([x] + s)
  {
    forall k | 0 <= k < |s| ensures AntesOIgual(x.fecha, x.hora, s[k].fecha, s[k].hora) {
      if k > 0 {
        AntesOIgualTransitivo(x.fecha, x.hora, s[0].fecha, s[0].hora, s[k].fecha, s[k].hora);
      }
    }
  }

  /** The head of an ordered list goes in front of the tail with a later record inserted. */
  lemma TrasLaCabeza(x: Cita, s: seq<Cita>, t: seq<Cita>)
    requires Ordenadas(s) && s != [] && AntesOIgual(s[0].fecha, s[0].hora, x.fecha, x.hora)
    requires Ordenadas(t) && forall k | 0 <= k < |t| :: t[k] == x || t[k] in s[1..]
    ensures Ordenadas([s[0]] + t)
  {
    forall k | 0 <= k < |t| ensures AntesOIgual(s[0].fecha, s[0].hora, t[k].fecha, t[k].hora) {
      if t[k] != x {
        var j :| 0 <= j < |s[1..]| && s[1..][j] == t[k];
        assert s[j + 1] == t[k];
      }
    }
    var r := [s[0]] + t;
    forall i, j | 0 <= i < j < |r| ensures AntesOIgual(r[i].fecha, r[i].hora, r[j].fecha, r[j].hora) {
      if i > 0 {
        assert r[i] == t[i - 1] && r[j] == t[j - 1];
      }
    }
  }

  /** `GET /api/citas` (obtenerTodasLasCitas): every record once, ordered by (fecha, hora). */
  method ObtenerTodasLasCitas(db: Db) returns (r: seq<Cita>)
    ensures Ordenadas(r)
    ensures |r| == |db.citas|
    ensures forall x | x in r :: x in db.citas.Values
    ensures forall k | k in db.citas :: db.citas[k] in r
  {
    r := [];
    var pendientes := db.citas.Keys;
    while pendientes != {}
      invariant pendientes <= db.citas.Keys
      invariant Ordenadas(r)
      invariant |r| + |pendientes| == |db.citas|
      invariant forall x | x in r :: x in db.citas.Values
      invariant forall k | k in db.citas && k !in pendientes :: db.citas[k] in r
      decreases |pendientes|
    {
      var k :| k in pendientes;
      r := InsertarCita(db.citas[k], r);
      pendientes := pendientes - {k};
    }
  }

  /** The fields the per-user listing projects. */
  datatype CitaPublica = CitaPublica(
    citaId: string, servicio: string, fecha: string, hora: string, nombreCliente: string, estado: string)

  function Proyectar(c: Cita): CitaPublica {
    CitaPublica(c.citaId, c.servicio, c.fecha, c.hora, c.nombreCliente, c.estado)
  }

  ghost predicate OrdenadasPublicas(s: seq<CitaPublica>) {
    forall i, j | 0 <= i < j < |s| :: AntesOIgual(s[i].fecha, s[i].hora, s[j].fecha, s[j].hora)
  }

  /** The keys of the records whose `correo` is exactly `correo`. */
  ghost function ConCorreo(citas: map<string, Cita>, correo: string): set<string> {
    set k | k in citas && citas[k].correo == Some(correo)
  }

  /** `find({ correo }).sort({ fecha: 1, hora: 1 })`: exactly the records with that `correo`, in order. */
  method BuscarPorCorreo(db: Db, correo: string) returns (r: seq<Cita>)
    ensures Ordenadas(r)
    ensures |r| == |ConCorreo(db.citas, correo)|
    ensures forall x | x in r :: exists k | k in ConCorreo(db.citas, correo) :: x == db.citas[k]
    ensures forall k | k in ConCorreo(db.citas, correo) :: db.citas[k] in r
  {
    r := [];
    var pendientes := db.citas.Keys;
    ghost var vistas: set<string> := {};
    while pendientes != {}
      invariant CorreoTras(db.citas, correo, pendientes, vistas, r)
      decreases |pendientes|
    {
      var k :| k in pendientes;
      CorreoPaso(db.citas, correo, pendientes, vistas, r, k);
      if db.citas[k].correo == Some(correo) {
        r := InsertarCita(db.citas[k], r);
        vistas := vistas + {k};
      }
      pendientes := pendientes - {k};
    }
  }

  /** The search after the keys outside `pendientes`: `r` holds, in order, the records of `vistas`. */
  ghost predicate CorreoTras(citas: map<string, Cita>, correo: string, pendientes: set<string>,
                             vistas: set<string>, r: seq<Cita>) {
    pendientes <= citas.Keys
    && vistas == ConCorreo(citas, correo) - pendientes
    && Ordenadas(r)
    && |r| == |vistas|
    && (forall x | x in r :: exists k | k in vistas :: x == citas[k])
    && (forall k | k in vistas :: citas[k] in r)
  }

  /** One key more: a matching record is inserted in order, any other skipped. */
  lemma CorreoPaso(citas: map<string, Cita>, correo: string, pendientes: set<string>,
                   vistas: set<string>, r: seq<Cita>, k: string)
    requires CorreoTras(citas, correo, pendientes, vistas, r) && k in pendientes
    ensures citas[k].correo == Some(correo) ==>
              CorreoTras(citas, correo, pendientes - {k}, vistas + {k}, InsertarCita(citas[k], r))
    ensures citas[k].correo != Some(correo) ==> CorreoTras(citas, correo, pendientes - {k}, vistas, r)
  {
    if citas[k].correo == Some(correo) {
      CorreoCoincide(citas, correo, pendientes, vistas, r, k);
    }
  }

  lemma CorreoCoincide(citas: map<string, Cita>, correo: string, pendientes: set<string>,
                       vistas: set<string>, r: seq<Cita>, k: string)
    requires CorreoTras(citas, correo, pendientes, vistas, r) && k in pendientes
    requires citas[k].correo == Some(correo)
    ensures CorreoTras(citas, correo, pendientes - {k}, vistas + {k}, InsertarCita(citas[k], r))
  {
    var r2 := InsertarCita(citas[k], r);
    var v2 := vistas + {k};
    assert v2 == ConCorreo(citas, correo) - (pendientes - {k});
    assert k !in vistas;
    assert |v2| == |vistas| + 1;
    forall x | x in r2 ensures exists j | j in v2 :: x == citas[j] {
      if x != citas[k] {
        var i :| 0 <= i < |r2| && r2[i] == x;
        assert x in r;
      }
    }
    forall j | j in v2 ensures citas[j] in r2 {
      if j != k {
        assert citas[j] in r;
      }
    }
  }

  /**
   * `GET /api/citas/usuario/:correo` and `GET /api/citas/mis-citas?correo=` (obtenerCitasPorCorreo):
   * the projection of exactly the records with that `correo`, ordered by (fecha, hora).
   */
  method ObtenerCitasPorCorreo(db: Db, correoParam: string, correoQuery: string)
    returns (status: int, r: seq<CitaPublica>)
    ensures var correo := if correoParam != "" then correoParam else correoQuery;
            (correo == "" ==> status == 400 && r == [])
            && (correo != "" ==>
                  status == 200 && OrdenadasPublicas(r)
                  && |r| == |ConCorreo(db.citas, correo)|
                  && (forall x | x in r :: exists k | k in ConCorreo(db.citas, correo) :: x == Proyectar(db.citas[k]))
                  && (forall k | k in ConCorreo(db.citas, correo) :: Proyectar(db.citas[k]) in r))
  {
    var correo := if correoParam != "" then correoParam else correoQuery;
    if correo == "" {
      return 400, [];
    }
    var elegidas := BuscarPorCorreo(db, correo);
    r := seq(|elegidas|, j requires 0 <= j < |elegidas| => Proyectar(elegidas[j]));
    forall x | x in r ensures exists k | k in ConCorreo(db.citas, correo) :: x == Proyectar(db.citas[k]) {
      var j :| 0 <= j < |r| && r[j] == x;
      assert elegidas[j] in elegidas;
      var k :| k in ConCorreo(db.citas, correo) && elegidas[j] == db.citas[k];
    }
    forall k | k in ConCorreo(db.citas, correo) ensures Proyectar(db.citas[k]) in r {
      var j :| 0 <= j < |elegidas| && elegidas[j] == db.citas[k];
      assert r[j] == Proyectar(db.citas[k]);
    }
    status := 200;
  }
}
