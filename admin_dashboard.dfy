/**
 * The admin dashboard `AdminDashboardPage.jsx`: reading `"YYYY-MM-DD"` dates, normalising the
 * records of `/api/citas/admin`, the time stamp of an appointment, and the three summaries the
 * page computes from them: the next eight appointments, today's counters with the next
 * appointment, and the month's counters with its five most booked services. The month grid is
 * `Calendario.GenerarCalendario`, the hour check `Validacion.EsHora24`.
 *
 * `Date` is abstract: a day and time is a `FechaHora` (the arguments given to `new Date` and
 * `setHours`), its time stamp is `tiempo` of it, and "now", the bounds of today and "this month"
 * come in as parameters.
 */
module AdminDashboard {
  import opened Wrappers
  import opened Listas
  import opened Texto
  import opened Validacion
  import MisCitas

  type FechaHora = MisCitas.FechaHora

  /**
   * `parseFechaYYYYMMDD`: `null` for an empty text, for anything but exactly three `-`-separated
   * parts, and when one of them is not a number; otherwise that day at midnight, the month
   * zero-based.
   */
  function ParseFechaYYYYMMDD(fechaStr: string): Option<FechaHora> {
    if fechaStr == "" then None
    else
      var partes := Partir(fechaStr, '-');
      if |partes| != 3 then None
      else DiaDeNumeros(ParseInt(partes[0]), ParseInt(partes[1]), ParseInt(partes[2]))
  }

  /** `new Date(anio, mes, dia)` at midnight, `null` when a number is NaN. */
  function DiaDeNumeros(anio: Option<int>, mes: Option<int>, dia: Option<int>): Option<FechaHora> {
    if anio.None? || mes.None? || dia.None? then None
    else Some(MisCitas.FechaHora(anio.value, mes.value - 1, dia.value, 0, 0))
  }

  /** The date is refused exactly when it is empty, has other than three parts, or a part is not a number. */
  lemma FechaRechazada(fechaStr: string)
    ensures ParseFechaYYYYMMDD(fechaStr).None? <==>
              fechaStr == "" || |Partir(fechaStr, '-')| != 3 || ParseInt(Partir(fechaStr, '-')[0]).None?
              || ParseInt(Partir(fechaStr, '-')[1]).None? || ParseInt(Partir(fechaStr, '-')[2]).None?
  {
  }

  /** A non-empty text of three parts that read as numbers is that day at midnight. */
  lemma FechaDePartesLeidas(fechaStr: string, anio: int, mes: int, dia: int)
    requires fechaStr != "" && |Partir(fechaStr, '-')| == 3
    requires ParseInt(Partir(fechaStr, '-')[0]) == Some(anio) && ParseInt(Partir(fechaStr, '-')[1]) == Some(mes)
    requires ParseInt(Partir(fechaStr, '-')[2]) == Some(dia)
    ensures ParseFechaYYYYMMDD(fechaStr) == Some(MisCitas.FechaHora(anio, mes - 1, dia, 0, 0))
  {
    var p := Partir(fechaStr, '-');
    PartesDeFecha(fechaStr, p);
    DiaDeTresNumeros(anio, mes, dia);
  }

  /** A non-empty text of three parts is read from the numbers of its parts. */
  lemma PartesDeFecha(fechaStr: string, p: seq<string>)
    requires fechaStr != "" && Partir(fechaStr, '-') == p && |p| == 3
    ensures ParseFechaYYYYMMDD(fechaStr) == DiaDeNumeros(ParseInt(p[0]), ParseInt(p[1]), ParseInt(p[2]))
  {
  }

  lemma DiaDeTresNumeros(anio: int, mes: int, dia: int)
    ensures DiaDeNumeros(Some(anio), Some(mes), Some(dia)) == Some(MisCitas.FechaHora(anio, mes - 1, dia, 0, 0))
  {
  }

  /** Three dash-free pieces that read as numbers, joined by dashes, are read as that day. */
  lemma FechaDeTresPartes(a: string, b: string, c: string, anio: int, mes: int, dia: int)
    requires '-' !in a && '-' !in b && '-' !in c
    requires ParseInt(a) == Some(anio) && ParseInt(b) == Some(mes) && ParseInt(c) == Some(dia)
    ensures ParseFechaYYYYMMDD(a + "-" + b + "-" + c) == Some(MisCitas.FechaHora(anio, mes - 1, dia, 0, 0))
  {
    var f := a + "-" + b + "-" + c;
    assert Partir(f, '-') == [a, b, c] by {
      assert f == a + ['-'] + b + ['-'] + c;
      MisCitas.PartirEnTres(a, b, c, '-');
    }
    assert |f| > 0;
    FechaDeTextoPartido(f, [a, b, c], anio, mes, dia);
  }

  lemma FechaDeTextoPartido(f: string, p: seq<string>, anio: int, mes: int, dia: int)
    requires f != "" && Partir(f, '-') == p && |p| == 3
    requires ParseInt(p[0]) == Some(anio) && ParseInt(p[1]) == Some(mes) && ParseInt(p[2]) == Some(dia)
    ensures ParseFechaYYYYMMDD(f) == Some(MisCitas.FechaHora(anio, mes - 1, dia, 0, 0))
  {
    FechaDePartesLeidas(f, anio, mes, dia);
  }

  /** The text `"YYYY-MM-DD"` of a day is read back as that day, at midnight. */
  lemma FechaYYYYMMDDLegible(anio: nat, mes: nat, dia: nat)
    ensures ParseFechaYYYYMMDD(NatATexto(anio) + "-" + Pad2(mes) + "-" + Pad2(dia))
            == Some(MisCitas.FechaHora(anio, mes - 1, dia, 0, 0))
  {
    MisCitas.CifrasSinOtro(NatATexto(anio), '-');
    MisCitas.CifrasSinOtro(Pad2(mes), '-');
    MisCitas.CifrasSinOtro(Pad2(dia), '-');
    ParseIntNatATexto(anio, []);
    ParseIntPad2(mes, []);
    ParseIntPad2(dia, []);
    assert NatATexto(anio) + [] == NatATexto(anio) && Pad2(mes) + [] == Pad2(mes) && Pad2(dia) + [] == Pad2(dia);
    FechaDeTresPartes(NatATexto(anio), Pad2(mes), Pad2(dia), anio, mes, dia);
  }

  /**
   * Whenever the dashboard reads a date, the client's page reads the same day from it (at
   * midnight, with no hour); the client's page also reads texts of more than three parts.
   */
  lemma MismaFechaQueMisCitas(fechaStr: string)
    requires ParseFechaYYYYMMDD(fechaStr).Some?
    ensures MisCitas.ObtenerDateCita(fechaStr, "") == ParseFechaYYYYMMDD(fechaStr)
  {
    var p := Partir(fechaStr, '-');
    var anio, mes, dia := ParseInt(p[0]).value, ParseInt(p[1]).value, ParseInt(p[2]).value;
    FechaDePartesLeidas(fechaStr, anio, mes, dia);
    assert MisCitas.ParseParte(p, 0) == Some(anio) && MisCitas.ParseParte(p, 1) == Some(mes);
    assert MisCitas.ParseParte(p, 2) == Some(dia);
    assert MisCitas.HoraDeCita("").None?;
    MisCitas.FechaDePartes(fechaStr, "", anio, mes, dia, (0, 0));
  }

  /** The states `normalizarEstado` recognises, after `trim` and `toLowerCase`. */
  predicate Conocido(e: string) {
    e == "activa" || e == "pendiente" || e == "confirmada" || e == "cancelada" || e == "finalizada" || e == "completada"
  }

  /**
   * `normalizarEstado(estado)`: the recognised states become their label; any other non-empty
   * value is returned as it came (not trimmed); an empty one is "Pendiente".
   */
  function NormalizarEstado(estado: string): (r: string)
    ensures var e := Minusculas(Trim(estado));
            ((e == "activa" || e == "pendiente" || estado == "") ==> r == "Pendiente")
            && (e == "confirmada" ==> r == "Confirmada")
            && (e == "cancelada" ==> r == "Cancelada")
            && ((e == "finalizada" || e == "completada") ==> r == "Finalizada")
            && (!Conocido(e) && estado != "" ==> r == estado)
  {
    var e := Minusculas(Trim(estado));
    if e == "activa" then "Pendiente"
    else if e == "pendiente" then "Pendiente"
    else if e == "confirmada" then "Confirmada"
    else if e == "cancelada" then "Cancelada"
    else if e == "finalizada" || e == "completada" then "Finalizada"
    else if estado != "" then estado
    else "Pendiente"
  }

  lemma EtiquetaPendiente()
    ensures Minusculas(Trim("Pendiente")) == "pendiente"
  {
    TrimSinBordes("Pendiente");
  }

  lemma EtiquetaConfirmada()
    ensures Minusculas(Trim("Confirmada")) == "confirmada"
  {
    TrimSinBordes("Confirmada");
  }

  lemma EtiquetaCancelada()
    ensures Minusculas(Trim("Cancelada")) == "cancelada"
  {
    TrimSinBordes("Cancelada");
  }

  lemma EtiquetaFinalizada()
    ensures Minusculas(Trim("Finalizada")) == "finalizada"
  {
    TrimSinBordes("Finalizada");
  }

  /** Normalising a normalised state changes nothing: every label is read back as itself. */
  lemma NormalizarEstadoIdempotente(estado: string)
    ensures NormalizarEstado(NormalizarEstado(estado)) == NormalizarEstado(estado)
  {
    EtiquetaPendiente();
    EtiquetaConfirmada();
    EtiquetaCancelada();
    EtiquetaFinalizada();
  }

  /** A record of `/api/citas/admin` as the page reads it; `""` for a missing or falsy field. */
  datatype CitaCruda = CitaCruda(
    citaId: string, oid: string, fecha: string, fechaCorta: string, nombreCliente: string, cliente: string,
    nombre: string, nombreCompleto: string, servicio: string, servicioNombre: string, hora: string, estado: string)

  /** `c?.citaId || c?._id || idx`. */
  datatype Id = PorTexto(texto: string) | PorIndice(indice: nat)

  /** An entry of `citasNormalizadas`. */
  datatype Normalizada = Normalizada(
    id: Id, fechaStr: string, fechaDate: Option<FechaHora>, cliente: string, servicio: string, hora: string, estado: string)

  /** `xs[0] || xs[1] || … || defecto`. */
  function PrimeroNoVacio(xs: seq<string>, defecto: string): (r: string)
    ensures (forall i | 0 <= i < |xs| :: xs[i] == "") ==> r == defecto
    ensures (exists i | 0 <= i < |xs| :: xs[i] != "") ==>
              exists i | 0 <= i < |xs| :: xs[i] == r && r != "" && forall j | 0 <= j < i :: xs[j] == ""
    decreases |xs|
  {
    if xs == [] then defecto
    else if xs[0] != "" then xs[0]
    else
      var r := PrimeroNoVacio(xs[1..], defecto);
      assert forall i | 1 <= i < |xs| :: xs[i] == xs[1..][i - 1];
      r
  }

  /** One entry of `citasNormalizadas`: the record at position `idx`, its fields defaulted. */
  function Normalizar(c: CitaCruda, idx: nat): (n: Normalizada)
    ensures n.fechaStr == PrimeroNoVacio([c.fecha, c.fechaCorta], "")
    ensures n.fechaDate == ParseFechaYYYYMMDD(n.fechaStr)
    ensures n.cliente == PrimeroNoVacio([c.nombreCliente, c.cliente, c.nombre, c.nombreCompleto], "Cliente") && n.cliente != ""
    ensures n.servicio == PrimeroNoVacio([c.servicio, c.servicioNombre], "Servicio") && n.servicio != ""
    ensures n.hora == Trim(c.hora) && n.estado == NormalizarEstado(c.estado)
    ensures n.id == (if c.citaId != "" then PorTexto(c.citaId) else if c.oid != "" then PorTexto(c.oid) else PorIndice(idx))
  {
    var fechaStr := PrimeroNoVacio([c.fecha, c.fechaCorta], "");
    Normalizada(
      if c.citaId != "" then PorTexto(c.citaId) else if c.oid != "" then PorTexto(c.oid) else PorIndice(idx),
      fechaStr, ParseFechaYYYYMMDD(fechaStr),
      PrimeroNoVacio([c.nombreCliente, c.cliente, c.nombre, c.nombreCompleto], "Cliente"),
      PrimeroNoVacio([c.servicio, c.servicioNombre], "Servicio"),
      Trim(c.hora), NormalizarEstado(c.estado))
  }

  /** `citasNormalizadas`: one entry per record, in order. */
  function CitasNormalizadas(cs: seq<CitaCruda>): (r: seq<Normalizada>)
    ensures |r| == |cs| && forall i | 0 <= i < |cs| :: r[i] == Normalizar(cs[i], i)
  {
    seq(|cs|, i requires 0 <= i < |cs| => Normalizar(cs[i], i))
  }

  /**
   * `obtenerTimestampCita`: `null` without a date; the day's midnight, moved to `hh:mm` when the
   * hour passes `esHora24` and both of its `split(":")` parts are numbers.
   */
  function MarcaCita(c: Normalizada, tiempo: FechaHora -> int): (r: Option<int>)
    ensures r.None? <==> c.fechaDate.None?
    ensures r.Some? && !EsHora24(c.hora) ==> r.value == tiempo(c.fechaDate.value)
  {
    if c.fechaDate.None? then None
    else if EsHora24(c.hora) then Some(MarcaConHora(c.fechaDate.value, Partir(c.hora, ':'), tiempo))
    else Some(tiempo(c.fechaDate.value))
  }

  /** The day moved to the two parts of the hour when both read as numbers, the day's midnight otherwise. */
  function MarcaConHora(dia: FechaHora, p: seq<string>, tiempo: FechaHora -> int): int {
    var hh, mm := MisCitas.ParseParte(p, 0), MisCitas.ParseParte(p, 1);
    if hh.Some? && mm.Some? then tiempo(dia.(horas := hh.value, minutos := mm.value))
    else tiempo(dia)
  }

  /** Both parts of an accepted hour read as numbers: the stamp is that time on the appointment's day. */
  lemma MarcaDePartes(c: Normalizada, tiempo: FechaHora -> int, a: string, b: string, h: int, m: int)
    requires c.fechaDate.Some? && EsHora24(c.hora) && Partir(c.hora, ':') == [a, b]
    requires ParseInt(a) == Some(h) && ParseInt(b) == Some(m)
    ensures MarcaCita(c, tiempo) == Some(tiempo(c.fechaDate.value.(horas := h, minutos := m)))
  {
    var p := Partir(c.hora, ':');
    assert MarcaCita(c, tiempo) == Some(MarcaConHora(c.fechaDate.value, p, tiempo));
    MarcaConHoraLeida(c.fechaDate.value, tiempo, a, b, h, m);
  }

  lemma MarcaConHoraLeida(dia: FechaHora, tiempo: FechaHora -> int, a: string, b: string, h: int, m: int)
    requires ParseInt(a) == Some(h) && ParseInt(b) == Some(m)
    ensures MarcaConHora(dia, [a, b], tiempo) == tiempo(dia.(horas := h, minutos := m))
  {
    assert MisCitas.ParseParte([a, b], 0) == Some(h) && MisCitas.ParseParte([a, b], 1) == Some(m);
  }

  /** For an hour written `"HH:MM"` the time stamp is that time on the appointment's day. */
  lemma MarcaDeHoraTexto(c: Normalizada, tiempo: FechaHora -> int, h: nat, m: nat)
    requires c.fechaDate.Some? && h < 24 && m < 60 && c.hora == HoraTexto(h, m)
    ensures MarcaCita(c, tiempo) == Some(tiempo(c.fechaDate.value.(horas := h, minutos := m)))
  {
    HoraDelDiaEsHora24(h, m);
    LeerHoraTexto(h, m);
    MarcaDePartes(c, tiempo, Pad2(h), Pad2(m), h, m);
  }

  /** `obtenerTimestampCita` as a function value, the stamp the page's summaries use. */
  function MarcaDe(tiempo: FechaHora -> int): Normalizada -> Option<int> {
    (c: Normalizada) => MarcaCita(c, tiempo)
  }

  /** `_orden || 0` over a stamp function `marca`. */
  function OrdenPor(marca: Normalizada -> Option<int>): Normalizada -> int {
    (c: Normalizada) => marca(c).GetOr(0)
  }

  /** `_orden || 0`, the sort key of the upcoming list: the time stamp, 0 when there is none. */
  function Orden(c: Normalizada, tiempo: FechaHora -> int): int {
    OrdenPor(MarcaDe(tiempo))(c)
  }

  predicate NoCerrada(c: Normalizada) {
    c.estado != "Cancelada" && c.estado != "Finalizada"
  }

  /** Dated, neither cancelled nor finished, stamped by `marca`, and not before `ahora`. */
  function ProximaPor(ahora: int, marca: Normalizada -> Option<int>): Normalizada -> bool {
    (c: Normalizada) => c.fechaDate.Some? && NoCerrada(c) && marca(c).Some? && marca(c).value >= ahora
  }

  /** Dated, neither cancelled nor finished, and with a time stamp not before `ahora`. */
  predicate Proxima(c: Normalizada, ahora: int, tiempo: FechaHora -> int) {
    ProximaPor(ahora, MarcaDe(tiempo))(c)
  }

  /**
   * The `forEach` of `proximasCitas`, for any stamp function `marca`: the entries kept are, in
   * order, those that are dated, neither cancelled nor finished, and stamped at or after `ahora`.
   */
  method RecogerProximas(cs: seq<Normalizada>, ahora: int, marca: Normalizada -> Option<int>) returns (lista: seq<Normalizada>)
    ensures lista == Filtrar(cs, ProximaPor(ahora, marca))
  {
    var proxima := ProximaPor(ahora, marca);
    lista := [];
    for i := 0 to |cs|
      invariant lista == Filtrar(cs[..i], proxima)
    {
      var c := cs[i];
      FiltrarPrefijoSiguiente(cs, i, proxima);
      if c.fechaDate.Some? && NoCerrada(c) {
        var ts := marca(c);
        if ts.Some? && ts.value >= ahora {
          lista := lista + [c];
        }
      }
    }
    assert cs[..|cs|] == cs;
  }

  /**
   * `proximasCitas`: the upcoming appointments, soonest first, at most eight of them, and the
   * soonest ones: an upcoming appointment is only left out when eight were kept, none later
   * than it; each upcoming record is shown at most as often as it occurs. The sort key is
   * recomputed rather than stored in the entries.
   */
  method ProximasCitas(cs: seq<Normalizada>, ahora: int, tiempo: FechaHora -> int) returns (r: seq<Normalizada>)
    ensures |r| <= 8
    ensures forall c | c in r :: c in cs && Proxima(c, ahora, tiempo)
    ensures forall i, j | 0 <= i < j < |r| :: Orden(r[i], tiempo) <= Orden(r[j], tiempo)
    ensures forall c | c in cs && Proxima(c, ahora, tiempo) && c !in r ::
              |r| == 8 && forall x | x in r :: Orden(x, tiempo) <= Orden(c, tiempo)
    ensures multiset(r) <= multiset(Filtrar(cs, ProximaPor(ahora, MarcaDe(tiempo))))
  {
    var lista := RecogerProximas(cs, ahora, MarcaDe(tiempo));
    r := Tomar(Ordenar(lista, OrdenPor(MarcaDe(tiempo))), 8);
    LosMenoresQue(cs, ProximaPor(ahora, MarcaDe(tiempo)), OrdenPor(MarcaDe(tiempo)), 8);
  }

  /** Dated and stamped by `marca` within `ini`..`fin`. */
  function EnRango(ini: int, fin: int, marca: Normalizada -> Option<int>): Normalizada -> bool {
    (c: Normalizada) => c.fechaDate.Some? && marca(c).Some? && ini <= marca(c).value <= fin
  }

  /** Time stamp within today's bounds `ini`..`fin`. */
  function DeHoy(ini: int, fin: int, tiempo: FechaHora -> int): Normalizada -> bool {
    EnRango(ini, fin, MarcaDe(tiempo))
  }

  /** Those of `p` in the state `estado`. */
  function ConEstado(p: Normalizada -> bool, estado: string): Normalizada -> bool {
    (c: Normalizada) => p(c) && c.estado == estado
  }

  /**
   * The four state counters of a summary never add up to more than its total: states other than
   * the four labels are counted in the total only.
   */
  lemma {:induction false} EstadosAcotados(s: seq<Normalizada>, p: Normalizada -> bool)
    ensures Contar(s, ConEstado(p, "Confirmada")) + Contar(s, ConEstado(p, "Pendiente"))
            + Contar(s, ConEstado(p, "Cancelada")) + Contar(s, ConEstado(p, "Finalizada")) <= Contar(s, p)
    decreases |s|
  {
    if s != [] {
      EstadosAcotados(s[..|s| - 1], p);
    }
  }

  /** The counters after one more record: each grows by one exactly when the record passes it. */
  lemma ContadoresAlFinal(s: seq<Normalizada>, c: Normalizada, p: Normalizada -> bool)
    ensures Contar(s + [c], p) == Contar(s, p) + (if p(c) then 1 else 0)
    ensures Contar(s + [c], ConEstado(p, "Confirmada")) == Contar(s, ConEstado(p, "Confirmada")) + (if p(c) && c.estado == "Confirmada" then 1 else 0)
    ensures Contar(s + [c], ConEstado(p, "Pendiente")) == Contar(s, ConEstado(p, "Pendiente")) + (if p(c) && c.estado == "Pendiente" then 1 else 0)
    ensures Contar(s + [c], ConEstado(p, "Cancelada")) == Contar(s, ConEstado(p, "Cancelada")) + (if p(c) && c.estado == "Cancelada" then 1 else 0)
    ensures Contar(s + [c], ConEstado(p, "Finalizada")) == Contar(s, ConEstado(p, "Finalizada")) + (if p(c) && c.estado == "Finalizada" then 1 else 0)
  {
    ContarAlFinal(s, c, p);
    ContarAlFinal(s, c, ConEstado(p, "Confirmada"));
    ContarAlFinal(s, c, ConEstado(p, "Pendiente"));
    ContarAlFinal(s, c, ConEstado(p, "Cancelada"));
    ContarAlFinal(s, c, ConEstado(p, "Finalizada"));
  }

  /** The day's counters and the next appointment. */
  datatype Hoy = Hoy(confirmadas: nat, pendientes: nat, canceladas: nat, finalizadas: nat, total: nat,
                     siguiente: Option<Normalizada>)

  /**
   * The callback of `resumenHoy`'s `forEach` on one record `c`: a record stamped within
   * `ini`..`fin` adds one to the total and to its state's counter; one not cancelled nor finished
   * and stamped at or after `ahora` becomes `siguiente` when none is kept yet or its stamp is
   * below the kept one's `_ts`, here `ts`.
   */
  method VisitarHoy(h: Hoy, ts: int, c: Normalizada, ini: int, fin: int, ahora: int, marca: Normalizada -> Option<int>)
    returns (h': Hoy, ts': int)
    ensures var hoy := EnRango(ini, fin, marca);
            h'.total == h.total + (if hoy(c) then 1 else 0)
            && h'.confirmadas == h.confirmadas + (if hoy(c) && c.estado == "Confirmada" then 1 else 0)
            && h'.pendientes == h.pendientes + (if hoy(c) && c.estado == "Pendiente" then 1 else 0)
            && h'.canceladas == h.canceladas + (if hoy(c) && c.estado == "Cancelada" then 1 else 0)
            && h'.finalizadas == h.finalizadas + (if hoy(c) && c.estado == "Finalizada" then 1 else 0)
    ensures if ProximaPor(ahora, marca)(c) && (h.siguiente.None? || OrdenPor(marca)(c) < ts)
            then h'.siguiente == Some(c) && ts' == OrdenPor(marca)(c)
            else h'.siguiente == h.siguiente && ts' == ts
  {
    h', ts' := h, ts;
    if c.fechaDate.Some? {
      var marcaC := marca(c);
      if marcaC.Some? {
        var t := marcaC.value;
        if ini <= t <= fin {
          h' := h'.(total := h'.total + 1);
          if c.estado == "Confirmada" {
            h' := h'.(confirmadas := h'.confirmadas + 1);
          } else if c.estado == "Pendiente" {
            h' := h'.(pendientes := h'.pendientes + 1);
          } else if c.estado == "Cancelada" {
            h' := h'.(canceladas := h'.canceladas + 1);
          } else if c.estado == "Finalizada" {
            h' := h'.(finalizadas := h'.finalizadas + 1);
          }
        }
        if t >= ahora && c.estado != "Cancelada" && c.estado != "Finalizada" {
          if h'.siguiente.None? || t < ts' {
            h', ts' := h'.(siguiente := Some(c)), t;
          }
        }
      }
    }
  }

  /**
   * What the `forEach` of `resumenHoy` has gathered after the records `s`: the counters over
   * those stamped within `ini`..`fin`, and `siguiente`, at `k`, with its stamp `ts`, the first
   * upcoming record of smallest stamp.
   */
  ghost predicate HoyTras(h: Hoy, ts: int, k: nat, s: seq<Normalizada>, ini: int, fin: int, ahora: int,
                          marca: Normalizada -> Option<int>) {
    var hoy := EnRango(ini, fin, marca);
    h.total == Contar(s, hoy)
    && h.confirmadas == Contar(s, ConEstado(hoy, "Confirmada"))
    && h.pendientes == Contar(s, ConEstado(hoy, "Pendiente"))
    && h.canceladas == Contar(s, ConEstado(hoy, "Cancelada"))
    && h.finalizadas == Contar(s, ConEstado(hoy, "Finalizada"))
    && PrimerMinimo(s, ProximaPor(ahora, marca), OrdenPor(marca)) == (if h.siguiente.None? then None else Some(k))
    && (h.siguiente.Some? ==> k < |s| && h.siguiente.value == s[k] && ts == OrdenPor(marca)(s[k]))
  }

  /** The callback keeps `HoyTras` for the records seen so far and the one it visits. */
  lemma HoyPaso(h: Hoy, ts: int, k: nat, s: seq<Normalizada>, c: Normalizada, h': Hoy, ts': int,
                ini: int, fin: int, ahora: int, marca: Normalizada -> Option<int>)
    requires HoyTras(h, ts, k, s, ini, fin, ahora, marca)
    requires var hoy := EnRango(ini, fin, marca);
             h'.total == h.total + (if hoy(c) then 1 else 0)
             && h'.confirmadas == h.confirmadas + (if hoy(c) && c.estado == "Confirmada" then 1 else 0)
             && h'.pendientes == h.pendientes + (if hoy(c) && c.estado == "Pendiente" then 1 else 0)
             && h'.canceladas == h.canceladas + (if hoy(c) && c.estado == "Cancelada" then 1 else 0)
             && h'.finalizadas == h.finalizadas + (if hoy(c) && c.estado == "Finalizada" then 1 else 0)
    requires if ProximaPor(ahora, marca)(c) && (h.siguiente.None? || OrdenPor(marca)(c) < ts)
             then h'.siguiente == Some(c) && ts' == OrdenPor(marca)(c)
             else h'.siguiente == h.siguiente && ts' == ts
    ensures var k' := if ProximaPor(ahora, marca)(c) && (h.siguiente.None? || OrdenPor(marca)(c) < ts) then |s| else k;
            HoyTras(h', ts', k', s + [c], ini, fin, ahora, marca)
  {
    ContadoresAlFinal(s, c, EnRango(ini, fin, marca));
    PrimerMinimoAlFinal(s, c, ProximaPor(ahora, marca), OrdenPor(marca));
    if h.siguiente.Some? {
      assert (s + [c])[k] == s[k];
    }
    assert (s + [c])[|s|] == c;
  }

  /**
   * The `forEach` of `resumenHoy`, for any stamp function `marca`: the counters over the records
   * stamped within `ini`..`fin`, and `siguiente`, the first upcoming record of smallest stamp.
   */
  method ContarHoy(cs: seq<Normalizada>, ini: int, fin: int, ahora: int, marca: Normalizada -> Option<int>) returns (h: Hoy)
    ensures var hoy := EnRango(ini, fin, marca);
            h.total == Contar(cs, hoy)
            && h.confirmadas == Contar(cs, ConEstado(hoy, "Confirmada"))
            && h.pendientes == Contar(cs, ConEstado(hoy, "Pendiente"))
            && h.canceladas == Contar(cs, ConEstado(hoy, "Cancelada"))
            && h.finalizadas == Contar(cs, ConEstado(hoy, "Finalizada"))
    ensures match PrimerMinimo(cs, ProximaPor(ahora, marca), OrdenPor(marca))
            case None => h.siguiente.None?
            case Some(k) => h.siguiente == Some(cs[k])
  {
    h := Hoy(0, 0, 0, 0, 0, None);
    var tsSiguiente := 0;
    ghost var k: nat := 0;
    for i := 0 to |cs|
      invariant HoyTras(h, tsSiguiente, k, cs[..i], ini, fin, ahora, marca)
    {
      var c := cs[i];
      assert cs[..i + 1] == cs[..i] + [c];
      var h', ts' := VisitarHoy(h, tsSiguiente, c, ini, fin, ahora, marca);
      HoyPaso(h, tsSiguiente, k, cs[..i], c, h', ts', ini, fin, ahora, marca);
      if ProximaPor(ahora, marca)(c) && (h.siguiente.None? || OrdenPor(marca)(c) < tsSiguiente) {
        k := i;
      }
      h, tsSiguiente := h', ts';
    }
    assert cs[..|cs|] == cs;
  }

  /**
   * `resumenHoy`: the counters over today's appointments, and `siguiente`, the upcoming
   * appointment with the smallest time stamp, the first such when several share it.
   */
  method ResumenHoy(cs: seq<Normalizada>, ini: int, fin: int, ahora: int, tiempo: FechaHora -> int) returns (h: Hoy)
    ensures h.total == Contar(cs, DeHoy(ini, fin, tiempo))
    ensures h.confirmadas == Contar(cs, ConEstado(DeHoy(ini, fin, tiempo), "Confirmada"))
    ensures h.pendientes == Contar(cs, ConEstado(DeHoy(ini, fin, tiempo), "Pendiente"))
    ensures h.canceladas == Contar(cs, ConEstado(DeHoy(ini, fin, tiempo), "Cancelada"))
    ensures h.finalizadas == Contar(cs, ConEstado(DeHoy(ini, fin, tiempo), "Finalizada"))
    ensures h.siguiente.None? <==> forall i | 0 <= i < |cs| :: !Proxima(cs[i], ahora, tiempo)
    ensures h.siguiente.Some? ==>
              exists k | 0 <= k < |cs| ::
                cs[k] == h.siguiente.value && Proxima(cs[k], ahora, tiempo)
                && (forall j | 0 <= j < |cs| && Proxima(cs[j], ahora, tiempo) :: Orden(cs[k], tiempo) <= Orden(cs[j], tiempo))
                && (forall j | 0 <= j < k && Proxima(cs[j], ahora, tiempo) :: Orden(cs[k], tiempo) < Orden(cs[j], tiempo))
  {
    h := ContarHoy(cs, ini, fin, ahora, MarcaDe(tiempo));
    var m := PrimerMinimo(cs, ProximaPor(ahora, MarcaDe(tiempo)), OrdenPor(MarcaDe(tiempo)));
    if m.Some? {
      assert cs[m.value] == h.siguiente.value;
    }
  }

  /** Dated within the month the page shows (`getFullYear() === y && getMonth() === m`). */
  function DelMes(enMes: FechaHora -> bool): Normalizada -> bool {
    (c: Normalizada) => c.fechaDate.Some? && enMes(c.fechaDate.value)
  }

  /** `String(c.servicio || "Servicio").trim()`, the key the month summary counts by. */
  function ServicioDe(c: Normalizada): string {
    Trim(if c.servicio == "" then "Servicio" else c.servicio)
  }

  /** Those of `p` whose key `clave` is `srv`. */
  function ConClave(p: Normalizada -> bool, clave: Normalizada -> string, srv: string): Normalizada -> bool {
    (c: Normalizada) => p(c) && clave(c) == srv
  }

  /** The month's records of the service `srv`. */
  function DelServicio(enMes: FechaHora -> bool, srv: string): Normalizada -> bool {
    ConClave(DelMes(enMes), ServicioDe, srv)
  }

  /** An entry of `conteoServicios`, which a `Map` keeps in insertion order. */
  datatype Conteo = Conteo(servicio: string, conteo: nat)

  function ServicioDeConteo(e: Conteo): string {
    e.servicio
  }

  /** `conteoServicios.set(srv, (conteoServicios.get(srv) || 0) + 1)`. */
  function Incrementar(entradas: seq<Conteo>, srv: string): (r: seq<Conteo>)
    ensures PrimeroCon(entradas, ServicioDeConteo, srv).None? ==> r == entradas + [Conteo(srv, 1)]
    ensures PrimeroCon(entradas, ServicioDeConteo, srv).Some? ==>
              var k := PrimeroCon(entradas, ServicioDeConteo, srv).value;
              r == entradas[k := Conteo(srv, entradas[k].conteo + 1)]
  {
    match PrimeroCon(entradas, ServicioDeConteo, srv)
    case Some(k) => entradas[k := Conteo(srv, entradas[k].conteo + 1)]
    case None => entradas + [Conteo(srv, 1)]
  }

  /**
   * The map after the records `s`, counting those of `p` by `clave`: one entry per key, no key
   * twice, each with the number of those records with that key.
   */
  ghost predicate ConteosDe(entradas: seq<Conteo>, s: seq<Normalizada>, p: Normalizada -> bool, clave: Normalizada -> string) {
    (forall i, j | 0 <= i < j < |entradas| :: entradas[i].servicio != entradas[j].servicio)
    && (forall i | 0 <= i < |entradas| ::
          entradas[i].conteo == Contar(s, ConClave(p, clave, entradas[i].servicio)) && entradas[i].conteo >= 1)
    && (forall j | 0 <= j < |s| && p(s[j]) :: exists i | 0 <= i < |entradas| :: entradas[i].servicio == clave(s[j]))
  }

  /** A record that is not counted leaves the counts as they are. */
  lemma ConteoFuera(entradas: seq<Conteo>, s: seq<Normalizada>, x: Normalizada, p: Normalizada -> bool, clave: Normalizada -> string)
    requires ConteosDe(entradas, s, p, clave) && !p(x)
    ensures ConteosDe(entradas, s + [x], p, clave)
  {
    forall i | 0 <= i < |entradas|
      ensures entradas[i].conteo == Contar(s + [x], ConClave(p, clave, entradas[i].servicio))
    {
      ContarAlFinal(s, x, ConClave(p, clave, entradas[i].servicio));
    }
    forall j | 0 <= j < |s + [x]| && p((s + [x])[j])
      ensures exists i | 0 <= i < |entradas| :: entradas[i].servicio == clave((s + [x])[j])
    {
      if j < |s| {
        assert (s + [x])[j] == s[j];
      } else {
        assert false;
      }
    }
  }

  /** A counted record whose key has the entry `k` adds one to that entry. */
  lemma ConteoExistente(entradas: seq<Conteo>, s: seq<Normalizada>, x: Normalizada, p: Normalizada -> bool,
                        clave: Normalizada -> string, k: nat)
    requires ConteosDe(entradas, s, p, clave) && p(x) && k < |entradas| && entradas[k].servicio == clave(x)
    ensures ConteosDe(entradas[k := Conteo(clave(x), entradas[k].conteo + 1)], s + [x], p, clave)
  {
    var r := entradas[k := Conteo(clave(x), entradas[k].conteo + 1)];
    var s' := s + [x];
    assert forall i | 0 <= i < |r| :: r[i].servicio == entradas[i].servicio;
    forall i | 0 <= i < |r| ensures r[i].conteo == Contar(s', ConClave(p, clave, r[i].servicio)) && r[i].conteo >= 1 {
      ContarAlFinal(s, x, ConClave(p, clave, entradas[i].servicio));
      if i != k {
        assert r[i] == entradas[i] && entradas[i].servicio != clave(x);
      }
    }
    forall j | 0 <= j < |s'| && p(s'[j]) ensures exists i | 0 <= i < |r| :: r[i].servicio == clave(s'[j]) {
      if j < |s| {
        assert s'[j] == s[j];
        var i :| 0 <= i < |entradas| && entradas[i].servicio == clave(s[j]);
        assert r[i].servicio == entradas[i].servicio;
      } else {
        assert s'[j] == x && r[k].servicio == clave(x);
      }
    }
  }

  /** A counted record whose key has no entry adds a new entry with 1 at the end. */
  lemma ConteoNuevo(entradas: seq<Conteo>, s: seq<Normalizada>, x: Normalizada, p: Normalizada -> bool,
                    clave: Normalizada -> string)
    requires ConteosDe(entradas, s, p, clave) && p(x)
    requires forall i | 0 <= i < |entradas| :: entradas[i].servicio != clave(x)
    ensures ConteosDe(entradas + [Conteo(clave(x), 1)], s + [x], p, clave)
  {
    var r := entradas + [Conteo(clave(x), 1)];
    var s' := s + [x];
    ContarCeroSinEntrada(entradas, s, p, clave, clave(x));
    forall i | 0 <= i < |r| ensures r[i].conteo == Contar(s', ConClave(p, clave, r[i].servicio)) && r[i].conteo >= 1 {
      if i < |entradas| {
        assert r[i] == entradas[i];
        ContarAlFinal(s, x, ConClave(p, clave, entradas[i].servicio));
      } else {
        assert r[i] == Conteo(clave(x), 1);
        ContarAlFinal(s, x, ConClave(p, clave, clave(x)));
      }
    }
    forall j | 0 <= j < |s'| && p(s'[j]) ensures exists i | 0 <= i < |r| :: r[i].servicio == clave(s'[j]) {
      if j < |s| {
        assert s'[j] == s[j];
        var i :| 0 <= i < |entradas| && entradas[i].servicio == clave(s[j]);
        assert r[i] == entradas[i];
      } else {
        assert s'[j] == x && r[|entradas|].servicio == clave(x);
      }
    }
  }

  /** A counted record adds one to its key's entry, or a new entry with 1 at the end. */
  lemma ConteoDelMes(entradas: seq<Conteo>, s: seq<Normalizada>, x: Normalizada, p: Normalizada -> bool,
                     clave: Normalizada -> string)
    requires ConteosDe(entradas, s, p, clave) && p(x)
    ensures ConteosDe(Incrementar(entradas, clave(x)), s + [x], p, clave)
  {
    match PrimeroCon(entradas, ServicioDeConteo, clave(x))
    case Some(k) =>
      assert ServicioDeConteo(entradas[k]) == clave(x);
      ConteoExistente(entradas, s, x, p, clave, k);
    case None =>
      assert forall i | 0 <= i < |entradas| :: ServicioDeConteo(entradas[i]) != clave(x);
      ConteoNuevo(entradas, s, x, p, clave);
  }

  /** A key with no entry has no counted record. */
  lemma ContarCeroSinEntrada(entradas: seq<Conteo>, s: seq<Normalizada>, p: Normalizada -> bool,
                             clave: Normalizada -> string, srv: string)
    requires ConteosDe(entradas, s, p, clave)
    requires forall i | 0 <= i < |entradas| :: entradas[i].servicio != srv
    ensures Contar(s, ConClave(p, clave, srv)) == 0
  {
    forall j | 0 <= j < |s| ensures !ConClave(p, clave, srv)(s[j]) {
      if p(s[j]) {
        var i :| 0 <= i < |entradas| && entradas[i].servicio == clave(s[j]);
      }
    }
    FiltrarNinguno(s, ConClave(p, clave, srv));
    ContarEsFiltrar(s, ConClave(p, clave, srv));
  }

  /**
   * `Math.max(0, Math.min(100, Math.round((n / totalMes) * 100)))`, or 0 for an empty month, in
   * exact arithmetic: the nearest whole percentage, halves rounded up.
   */
  function Porcentaje(n: nat, total: nat): (r: int)
    ensures 0 <= r <= 100
    ensures total == 0 ==> r == 0
    ensures 0 < total && n <= total ==> r * (2 * total) <= 200 * n + total < (r + 1) * (2 * total)
  {
    if total == 0 then 0
    else
      var v := (200 * n + total) / (2 * total);
      PorcentajeRedondeado(n, total, v);
      if v > 100 then 100 else v
  }

  lemma PorcentajeRedondeado(n: nat, total: nat, v: int)
    requires total > 0 && v == (200 * n + total) / (2 * total)
    ensures v >= 0
    ensures v * (2 * total) <= 200 * n + total < (v + 1) * (2 * total)
    ensures n <= total ==> v <= 100
  {
    var d := 2 * total;
    var a := 200 * n + total;
    var resto := a % d;
    assert a == d * v + resto && 0 <= resto < d;
    assert v * d == d * v && (v + 1) * d == d * v + d;
    if v < 0 {
      MenorPorFactor(d, v, 0);
    }
    if n <= total {
      assert a < d * 101;
      MenorPorFactor(d, v, 101);
    }
  }

  /** Multiplying by the same positive factor keeps the order. */
  lemma MenorPorFactor(d: int, v: int, w: int)
    requires d > 0
    ensures d * v < d * w <==> v < w
  {
    if v < w {
      assert d * w - d * v == d * (w - v);
    } else {
      assert d * v - d * w == d * (v - w);
    }
  }

  /** The state counters and their percentages of the month summary. */
  datatype PorEstado = PorEstado(confirmada: int, pendiente: int, cancelada: int, finalizada: int)

  /**
   * `resumenMes`: the month's total, the five most booked services (most bookings first, the
   * others at or below every one kept), and the counters by state with their percentages.
   */
  method ResumenMes(cs: seq<Normalizada>, enMes: FechaHora -> bool)
    returns (totalMes: nat, topServicios: seq<Conteo>, estados: PorEstado, porcentajes: PorEstado)
    ensures totalMes == Contar(cs, DelMes(enMes))
    ensures estados == PorEstado(Contar(cs, ConEstado(DelMes(enMes), "Confirmada")), Contar(cs, ConEstado(DelMes(enMes), "Pendiente")),
                                 Contar(cs, ConEstado(DelMes(enMes), "Cancelada")), Contar(cs, ConEstado(DelMes(enMes), "Finalizada")))
    ensures porcentajes == PorEstado(Porcentaje(estados.confirmada, totalMes), Porcentaje(estados.pendiente, totalMes),
                                     Porcentaje(estados.cancelada, totalMes), Porcentaje(estados.finalizada, totalMes))
    ensures |topServicios| <= 5
    ensures forall i, j | 0 <= i < j < |topServicios| :: topServicios[i].conteo >= topServicios[j].conteo
    ensures forall i, j | 0 <= i < j < |topServicios| :: topServicios[i].servicio != topServicios[j].servicio
    ensures forall e | e in topServicios :: e.conteo == Contar(cs, DelServicio(enMes, e.servicio)) && e.conteo >= 1
    ensures forall c | c in cs && DelMes(enMes)(c) && (forall e | e in topServicios :: e.servicio != ServicioDe(c)) ::
              |topServicios| == 5 && forall e | e in topServicios :: Contar(cs, DelServicio(enMes, ServicioDe(c))) <= e.conteo
  {
    var mes := DelMes(enMes);
    var entradas, confirmada, pendiente, cancelada, finalizada;
    entradas, totalMes, confirmada, pendiente, cancelada, finalizada := RecorrerMes(cs, enMes);
    estados := PorEstado(confirmada, pendiente, cancelada, finalizada);
    porcentajes := PorEstado(Porcentaje(confirmada, totalMes), Porcentaje(pendiente, totalMes),
                             Porcentaje(cancelada, totalMes), Porcentaje(finalizada, totalMes));
    topServicios := LosMasPedidos(entradas);
    LosMasPedidosCuentan(entradas, cs, mes, ServicioDe);
  }

  /** The month loop over all the appointments: the counters and the per-service entries of `cs`. */
  method RecorrerMes(cs: seq<Normalizada>, enMes: FechaHora -> bool)
    returns (entradas: seq<Conteo>, totalMes: nat, confirmada: nat, pendiente: nat, cancelada: nat, finalizada: nat)
    ensures MesTras(cs, DelMes(enMes), totalMes, confirmada, pendiente, cancelada, finalizada, entradas)
  {
    var mes := DelMes(enMes);
    entradas := [];
    confirmada, pendiente, cancelada, finalizada := 0, 0, 0, 0;
    totalMes := 0;
    MesTrasVacio(cs, mes);
    for i := 0 to |cs|
      invariant MesTras(cs[..i], mes, totalMes, confirmada, pendiente, cancelada, finalizada, entradas)
    {
      PrefijoSiguiente(cs, i);
      entradas, totalMes, confirmada, pendiente, cancelada, finalizada :=
        SumarCitaDelMes(cs[..i], cs[i], enMes, entradas, totalMes, confirmada, pendiente, cancelada, finalizada);
    }
    assert cs[..|cs|] == cs;
  }

  /** What the month loop has counted after the appointments `s`. */
  ghost predicate MesTras(s: seq<Normalizada>, mes: Normalizada -> bool, totalMes: nat, confirmada: nat, pendiente: nat,
                          cancelada: nat, finalizada: nat, entradas: seq<Conteo>) {
    ContadoresTras(s, mes, totalMes, confirmada, pendiente, cancelada, finalizada)
    && ConteosDe(entradas, s, mes, ServicioDe)
  }

  /** Before the loop nothing is counted. */
  lemma MesTrasVacio(cs: seq<Normalizada>, mes: Normalizada -> bool)
    ensures MesTras(cs[..0], mes, 0, 0, 0, 0, 0, [])
  {
    assert cs[..0] == [];
  }

  /** The total and the four state counters after the appointments `s`. */
  ghost predicate ContadoresTras(s: seq<Normalizada>, mes: Normalizada -> bool, totalMes: nat, confirmada: nat, pendiente: nat,
                                 cancelada: nat, finalizada: nat) {
    totalMes == Contar(s, mes)
    && confirmada == Contar(s, ConEstado(mes, "Confirmada"))
    && pendiente == Contar(s, ConEstado(mes, "Pendiente"))
    && cancelada == Contar(s, ConEstado(mes, "Cancelada"))
    && finalizada == Contar(s, ConEstado(mes, "Finalizada"))
  }

  /** One turn of the month loop: an appointment of the month is counted in the total, its state and its service. */
  method SumarCitaDelMes(s: seq<Normalizada>, c: Normalizada, enMes: FechaHora -> bool, entradas: seq<Conteo>,
                         totalMes: nat, confirmada: nat, pendiente: nat, cancelada: nat, finalizada: nat)
    returns (entradas': seq<Conteo>, totalMes': nat, confirmada': nat, pendiente': nat, cancelada': nat, finalizada': nat)
    requires MesTras(s, DelMes(enMes), totalMes, confirmada, pendiente, cancelada, finalizada, entradas)
    ensures MesTras(s + [c], DelMes(enMes), totalMes', confirmada', pendiente', cancelada', finalizada', entradas')
  {
    var mes := DelMes(enMes);
    totalMes', confirmada', pendiente', cancelada', finalizada' :=
      SumarContadores(s, c, mes, totalMes, confirmada, pendiente, cancelada, finalizada);
    if c.fechaDate.Some? && enMes(c.fechaDate.value) {
      ConteoDelMes(entradas, s, c, mes, ServicioDe);
      entradas' := Incrementar(entradas, ServicioDe(c));
    } else {
      ConteoFuera(entradas, s, c, mes, ServicioDe);
      entradas' := entradas;
    }
  }

  /** The counters' part of a turn: one more in the total and in the appointment's state when it is of the month. */
  method SumarContadores(s: seq<Normalizada>, c: Normalizada, mes: Normalizada -> bool,
                         totalMes: nat, confirmada: nat, pendiente: nat, cancelada: nat, finalizada: nat)
    returns (totalMes': nat, confirmada': nat, pendiente': nat, cancelada': nat, finalizada': nat)
    requires ContadoresTras(s, mes, totalMes, confirmada, pendiente, cancelada, finalizada)
    ensures ContadoresTras(s + [c], mes, totalMes', confirmada', pendiente', cancelada', finalizada')
  {
    ContadoresAlFinal(s, c, mes);
    totalMes', confirmada', pendiente', cancelada', finalizada' := totalMes, confirmada, pendiente, cancelada, finalizada;
    if mes(c) {
      totalMes' := totalMes + 1;
      if c.estado == "Confirmada" {
        confirmada' := confirmada + 1;
      } else if c.estado == "Pendiente" {
        pendiente' := pendiente + 1;
      } else if c.estado == "Cancelada" {
        cancelada' := cancelada + 1;
      } else if c.estado == "Finalizada" {
        finalizada' := finalizada + 1;
      }
    }
  }

  function ClaveDescendente(e: Conteo): int {
    0 - e.conteo
  }

  /** `Array.from(entries).sort((a, b) => b.conteo - a.conteo).slice(0, 5)`. */
  function LosMasPedidos(entradas: seq<Conteo>): (top: seq<Conteo>)
    ensures |top| <= 5
    ensures forall i, j | 0 <= i < j < |top| :: top[i].conteo >= top[j].conteo
    ensures multiset(top) <= multiset(entradas)
  {
    var ordenada := Ordenar(entradas, ClaveDescendente);
    TomarOrdenada(ordenada, ClaveDescendente, 5);
    var top := Tomar(ordenada, 5);
    assert forall i, j | 0 <= i < j < |top| :: ClaveDescendente(top[i]) <= ClaveDescendente(top[j]);
    top
  }

  /**
   * Over complete counts, the five kept are distinct keys with their true counts, and a counted
   * record's key is only left out when five were kept, each counted at least as often.
   */
  lemma LosMasPedidosCuentan(entradas: seq<Conteo>, cs: seq<Normalizada>, p: Normalizada -> bool, clave: Normalizada -> string)
    requires ConteosDe(entradas, cs, p, clave)
    ensures var top := LosMasPedidos(entradas);
            (forall i, j | 0 <= i < j < |top| :: top[i].servicio != top[j].servicio)
            && (forall e | e in top :: e.conteo == Contar(cs, ConClave(p, clave, e.servicio)) && e.conteo >= 1)
            && (forall c | c in cs && p(c) && (forall e | e in top :: e.servicio != clave(c)) ::
                  |top| == 5 && forall e | e in top :: Contar(cs, ConClave(p, clave, clave(c))) <= e.conteo)
  {
    var ordenada := Ordenar(entradas, ClaveDescendente);
    MismosMiembros(entradas, ordenada);
    var top := Tomar(ordenada, 5);
    assert top == LosMasPedidos(entradas);
    TopDistintos(entradas, ordenada, top);
    forall e | e in top ensures e.conteo == Contar(cs, ConClave(p, clave, e.servicio)) && e.conteo >= 1 {
      assert e in ordenada;
      var i :| 0 <= i < |entradas| && entradas[i] == e;
    }
    forall c | c in cs && p(c) && (forall e | e in top :: e.servicio != clave(c))
      ensures |top| == 5 && forall e | e in top :: Contar(cs, ConClave(p, clave, clave(c))) <= e.conteo
    {
      var j :| 0 <= j < |cs| && cs[j] == c;
      var i :| 0 <= i < |entradas| && entradas[i].servicio == clave(cs[j]);
      assert entradas[i] in ordenada && entradas[i] !in top;
      TomarLosMenores(ordenada, ClaveDescendente, 5, entradas[i]);
    }
  }

  /** Sorting and taking a prefix keep the services of the entries distinct. */
  lemma TopDistintos(entradas: seq<Conteo>, ordenada: seq<Conteo>, top: seq<Conteo>)
    requires forall i, j | 0 <= i < j < |entradas| :: entradas[i].servicio != entradas[j].servicio
    requires multiset(ordenada) == multiset(entradas) && |top| <= |ordenada| && top == ordenada[..|top|]
    ensures forall i, j | 0 <= i < j < |top| :: top[i].servicio != top[j].servicio
  {
    forall i, j | 0 <= i < j < |top| ensures top[i].servicio != top[j].servicio {
      DistintosTrasPermutar(entradas, ordenada, i, j);
    }
  }

  lemma DistintosTrasPermutar(entradas: seq<Conteo>, ordenada: seq<Conteo>, i: nat, j: nat)
    requires forall a, b | 0 <= a < b < |entradas| :: entradas[a].servicio != entradas[b].servicio
    requires multiset(ordenada) == multiset(entradas) && i < j < |ordenada|
    ensures ordenada[i].servicio != ordenada[j].servicio
  {
    if ordenada[i].servicio == ordenada[j].servicio {
      assert ordenada[i] in multiset(entradas) && ordenada[j] in multiset(entradas);
      var a :| 0 <= a < |entradas| && entradas[a] == ordenada[i];
      var b :| 0 <= b < |entradas| && entradas[b] == ordenada[j];
      assert a == b;
      assert ordenada[i] == ordenada[j];
      DosCopias(ordenada, i, j);
      DistintosSinRepetir(entradas, a);
      assert false;
    }
  }

  /** Two positions holding the same value make it occur at least twice. */
  lemma DosCopias<T>(s: seq<T>, i: nat, j: nat)
    requires i < j < |s| && s[i] == s[j]
    ensures multiset(s)[s[i]] >= 2
  {
    assert s == s[..i] + [s[i]] + s[i + 1..j] + [s[j]] + s[j + 1..];
  }

  /** A value at one position of a list without repeated services occurs once. */
  lemma DistintosSinRepetir(entradas: seq<Conteo>, a: nat)
    requires forall x, y | 0 <= x < y < |entradas| :: entradas[x].servicio != entradas[y].servicio
    requires a < |entradas|
    ensures multiset(entradas)[entradas[a]] == 1
  {
    var e := entradas[a];
    var antes, despues := entradas[..a], entradas[a + 1..];
    assert entradas == antes + [e] + despues;
    assert e !in antes by {
      forall y | y in antes ensures y != e {
        var x :| 0 <= x < |antes| && antes[x] == y;
        assert entradas[x] == y;
      }
    }
    assert e !in despues by {
      forall y | y in despues ensures y != e {
        var x :| 0 <= x < |despues| && despues[x] == y;
        assert entradas[a + 1 + x] == y;
      }
    }
  }
}
