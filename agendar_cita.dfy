/**
 * The booking page `AgendarCitaPage.jsx`: the services it offers, the day picker that refuses
 * closed days, the hour buttons, and the check chain of `manejarSubmit` that decides whether
 * the request body for `POST /api/citas` is sent. The month grid is `Calendario.GenerarDiasDelMes`
 * and the validators are those of `Validacion`.
 */
module AgendarCita {
  import opened Wrappers
  import opened Listas
  import opened Texto
  import opened Validacion
  import opened Almacen
  import opened Citas
  import Servicios
  import Horarios

  function EstaPublicado(s: Servicio): bool {
    s.publicado
  }

  /** `arreglo.filter((s) => s.publicado === true)`: the services the page offers. */
  function ServiciosOfrecidos(ss: seq<Servicio>): (r: seq<Servicio>)
    ensures forall i | 0 <= i < |r| :: r[i].publicado
    ensures forall s | s in ss :: s.publicado <==> s in r
    ensures EsSubsecuencia(r, ss)
  {
    Filtrar(ss, EstaPublicado)
  }

  /** Toggling a service's publication moves it in or out of what the booking page offers. */
  lemma OfrecidoTrasAlternar(ss: seq<Servicio>, i: nat, ahora: int)
    requires i < |ss|
    ensures var s' := Servicios.Alternar(ss[i], ahora);
            (s' in ServiciosOfrecidos(ss[i := s'])) <==> !(ss[i] in ServiciosOfrecidos(ss))
  {
    var s' := Servicios.Alternar(ss[i], ahora);
    assert ss[i := s'][i] == s';
    assert ss[i] in ss;
  }

  /**
   * The click on a day cell: a day in `diasBloqueados` is disabled and its click does nothing;
   * any other day becomes the selection. Days are their `YYYY-MM-DD` keys.
   */
  function ElegirDia(seleccion: string, bloqueados: set<string>, clave: string): (r: string)
    ensures clave in bloqueados ==> r == seleccion
    ensures clave !in bloqueados ==> r == clave
  {
    if clave in bloqueados then seleccion else clave
  }

  /** Once the selection is an open day, no sequence of clicks moves it onto a closed day. */
  lemma {:induction false} SeleccionSiempreAbierta(seleccion: string, bloqueados: set<string>, clics: seq<string>)
    requires seleccion !in bloqueados
    ensures Clics(seleccion, bloqueados, clics) !in bloqueados
    decreases |clics|
  {
    if clics != [] {
      SeleccionSiempreAbierta(ElegirDia(seleccion, bloqueados, clics[0]), bloqueados, clics[1..]);
    }
  }

  /** The selection after the clicks `clics`, in order. */
  function Clics(seleccion: string, bloqueados: set<string>, clics: seq<string>): string
    decreases |clics|
  {
    if clics == [] then seleccion else Clics(ElegirDia(seleccion, bloqueados, clics[0]), bloqueados, clics[1..])
  }

  /** The hour buttons of the page. */
  const HORAS_DISPONIBLES: seq<string> := ["09:00", "09:30", "10:00", "10:30", "11:00", "11:30", "12:00", "12:30", "14:00"]

  /** A text of the form `HH:MM` that starts and ends with a digit is its own trim. */
  lemma HoraSinBordes(t: string)
    requires CoincideHora24(t)
    ensures EsHora24(t)
  {
    TrimSinBordes(t);
  }

  /** Every hour button passes the 24-hour check of the submit chain. */
  lemma HorasDisponiblesValidas()
    ensures forall i | 0 <= i < |HORAS_DISPONIBLES| :: EsHora24(HORAS_DISPONIBLES[i])
  {
    forall i | 0 <= i < |HORAS_DISPONIBLES| ensures EsHora24(HORAS_DISPONIBLES[i]) {
      HoraSinBordes(HORAS_DISPONIBLES[i]);
    }
  }

  /** Why `manejarSubmit` stopped before sending the appointment. */
  datatype Motivo = FaltanDatos | HoraInvalida | TelefonoInvalido | CorreoInvalido | DiaNoDisponible | SinConexion

  /**
   * How the `dia-bloqueado` pre-check ended: an OK answer with its `bloqueado` flag, an answer
   * that is not OK, or no usable answer at all (the request rejected, or its body not JSON), which
   * sends control to the `catch` of `manejarSubmit`.
   */
  datatype Bloqueo = BloqueoOk(bloqueado: bool) | BloqueoNoOk | BloqueoFallido

  datatype Envio = Detenido(motivo: Motivo) | Enviado(cuerpo: Reserva)

  /**
   * `manejarSubmit`. `fecha` is the selected day's `toISOString().slice(0, 10)` (`None` when no
   * day is selected), `servicio` the selected service, and `bloqueo` the outcome of the
   * `dia-bloqueado` request. Each check returns on failure, in this order: the five required
   * fields, the 24-hour hour on the trimmed text, the phone, the e-mail only when one was
   * written, then the day check, which stops on a blocked day and on a failed request but lets a
   * non-OK answer through.
   */
  function ManejarSubmit(fecha: Option<string>, hora: string, servicio: Option<Servicio>, nombre: string,
                         telefono: string, correo: string, bloqueo: Bloqueo): (r: Envio)
    ensures r == Detenido(FaltanDatos) <==> fecha.None? || hora == "" || servicio.None? || nombre == "" || telefono == ""
    ensures r == Detenido(HoraInvalida) <==>
              fecha.Some? && hora != "" && servicio.Some? && nombre != "" && telefono != "" && !EsHora24(hora)
    ensures r == Detenido(TelefonoInvalido) <==>
              fecha.Some? && hora != "" && servicio.Some? && nombre != "" && telefono != "" && EsHora24(hora)
              && !EsTelefonoValido(telefono)
    ensures r == Detenido(CorreoInvalido) <==>
              fecha.Some? && hora != "" && servicio.Some? && nombre != "" && EsHora24(hora) && EsTelefonoValido(telefono)
              && correo != "" && !EsCorreoValido(correo)
    ensures r.Enviado? <==>
              fecha.Some? && hora != "" && servicio.Some? && nombre != "" && EsHora24(hora) && EsTelefonoValido(telefono)
              && (correo == "" || EsCorreoValido(correo)) && bloqueo != BloqueoOk(true) && !bloqueo.BloqueoFallido?
    ensures r == Detenido(DiaNoDisponible) <==>
              fecha.Some? && hora != "" && servicio.Some? && nombre != "" && EsHora24(hora) && EsTelefonoValido(telefono)
              && (correo == "" || EsCorreoValido(correo)) && bloqueo == BloqueoOk(true)
    ensures r == Detenido(SinConexion) <==>
              fecha.Some? && hora != "" && servicio.Some? && nombre != "" && EsHora24(hora) && EsTelefonoValido(telefono)
              && (correo == "" || EsCorreoValido(correo)) && bloqueo.BloqueoFallido?
    ensures r.Enviado? ==> r.cuerpo == Reserva(fecha.value, hora, servicio.value.nombre, nombre, telefono, correo)
  {
    if fecha.None? || hora == "" || servicio.None? || nombre == "" || telefono == "" then Detenido(FaltanDatos)
    else if !EsHora24(hora) then Detenido(HoraInvalida)
    else if !EsTelefonoValido(telefono) then Detenido(TelefonoInvalido)
    else if correo != "" && !EsCorreoValido(correo) then Detenido(CorreoInvalido)
    else if bloqueo.BloqueoFallido? then Detenido(SinConexion)
    else if bloqueo == BloqueoOk(true) then Detenido(DiaNoDisponible)
    else Enviado(Reserva(fecha.value, hora, servicio.value.nombre, nombre, telefono, correo))
  }

  /**
   * What the page sends carries the backend's required fields except perhaps the date and the
   * service name (the page checks that a service was chosen, not that it has a name); its hour is
   * a padded time of day, its phone 7 to 15 digits, and its e-mail empty or an address the pattern
   * accepts.
   */
  lemma EnviadoEsAceptable(fecha: Option<string>, hora: string, servicio: Option<Servicio>, nombre: string,
                           telefono: string, correo: string, bloqueo: Bloqueo)
    requires ManejarSubmit(fecha, hora, servicio, nombre, telefono, correo, bloqueo).Enviado?
    ensures var c := ManejarSubmit(fecha, hora, servicio, nombre, telefono, correo, bloqueo).cuerpo;
            (Completa(c) <==> c.fecha != "" && c.servicioNombre != "")
            && (exists h: nat, m: nat | h < 24 && m < 60 :: Trim(c.hora) == HoraTexto(h, m))
            && SoloDigitos(c.telefono) == c.telefono && 7 <= |c.telefono| <= 15
            && (c.correo == "" || CoincideCorreo(c.correo))
  {
    var c := ManejarSubmit(fecha, hora, servicio, nombre, telefono, correo, bloqueo).cuerpo;
    assert c == Reserva(fecha.value, hora, servicio.value.nombre, nombre, telefono, correo);
    CuerpoAceptable(c);
  }

  /** The same facts about any body whose hour, phone and e-mail passed the checks of the chain. */
  lemma CuerpoAceptable(c: Reserva)
    requires c.hora != "" && c.nombre != "" && EsHora24(c.hora) && EsTelefonoValido(c.telefono)
    requires c.correo == "" || EsCorreoValido(c.correo)
    ensures Completa(c) <==> c.fecha != "" && c.servicioNombre != ""
    ensures exists h: nat, m: nat | h < 24 && m < 60 :: Trim(c.hora) == HoraTexto(h, m)
    ensures SoloDigitos(c.telefono) == c.telefono && 7 <= |c.telefono| <= 15
    ensures c.correo == "" || CoincideCorreo(c.correo)
  {
    EsHora24SiHoraDelDia(c.hora);
    TelefonoValidoSeConserva(c.telefono);
    CorreoValidoSiCoincide(c.correo);
  }

  /**
   * The page asks `GET /api/horarios/dia-bloqueado/:fecha`, which reads the admin's
   * `"config-global"` list: a day on that list is never booked from the page.
   */
  lemma DiaBloqueadoNoSeEnvia(config: Option<ConfigHorarios>, fecha: string, hora: string, servicio: Option<Servicio>,
                              nombre: string, telefono: string, correo: string)
    requires fecha in Horarios.ListaBloqueada(config)
    ensures ManejarSubmit(Some(fecha), hora, servicio, nombre, telefono, correo,
                          BloqueoOk(fecha in Horarios.ListaBloqueada(config))).Detenido?
  {
  }

}
