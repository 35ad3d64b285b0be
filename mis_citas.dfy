/**
 * The client's appointment page `MisCitasPage.jsx`: reading an appointment's date and hour,
 * splitting the list into upcoming and past appointments, and the status label.
 */
module MisCitas {
  import opened Wrappers
  import opened Listas
  import opened Texto
  import opened Validacion
  import opened Citas

  /**
   * The arguments of `new Date(anio, mes, dia)` followed by `setHours(horas, minutos, 0, 0)`;
   * `mes` is zero-based. A time stamp is the abstract `tiempo` of such a value.
   */
  datatype FechaHora = FechaHora(anio: int, mes: int, dia: int, horas: int, minutos: int)

  /** `parseInt` of an element of a `split` result that may be missing (`undefined` is NaN). */
  function ParseParte(partes: seq<string>, i: nat): Option<int> {
    if i < |partes| then ParseInt(partes[i]) else None
  }

  /** `hhmm.split(":")` read as `parseInt` of the hour and of the minutes, unreadable minutes being 0. */
  function LeerHhmm(hhmm: string): Option<(int, int)> {
    var hm := Partir(hhmm, ':');
    match ParseInt(hm[0])
    case None => None
    case Some(h) => Some((h, ParseParte(hm, 1).GetOr(0)))
  }

  /** The suffix after the first space, upper-cased; `""` when there is none. */
  function SufijoDe(partesHora: seq<string>): string {
    Mayusculas(if |partesHora| > 1 then partesHora[1] else "")
  }

  /** "PM" adds 12 to an hour below 12; "AM" then turns 12 into 0. */
  function AjustarSufijo(h: int, sufijo: string): (r: int)
    ensures sufijo != "PM" && sufijo != "AM" ==> r == h
    ensures sufijo == "PM" ==> r == (if h < 12 then h + 12 else h)
    ensures sufijo == "AM" ==> r == (if h == 12 then 0 else h)
  {
    var horas := if sufijo == "PM" && h < 12 then h + 12 else h;
    if sufijo == "AM" && horas == 12 then 0 else horas
  }

  /**
   * The hour and minutes `obtenerDateCita` passes to `setHours`, or `None` when it does not call
   * it (no `horaStr`, or an hour that is NaN): the trimmed text split at `" "` into `"hh:mm"` and
   * an upper-cased suffix.
   */
  function HoraDeCita(horaStr: string): (r: Option<(int, int)>)
    ensures horaStr == "" ==> r.None?
    ensures horaStr != "" ==> var p := Partir(Trim(horaStr), ' ');
              (r.None? <==> LeerHhmm(p[0]).None?)
              && (r.Some? ==> r.value == (AjustarSufijo(LeerHhmm(p[0]).value.0, SufijoDe(p)), LeerHhmm(p[0]).value.1))
  {
    if horaStr == "" then None
    else
      var partesHora := Partir(Trim(horaStr), ' ');
      match LeerHhmm(partesHora[0])
      case None => None
      case Some(hm) => Some((AjustarSufijo(hm.0, SufijoDe(partesHora)), hm.1))
  }

  /**
   * `obtenerDateCita`: `null` without a date or when the year, month or day of `"YYYY-MM-DD"`
   * is NaN; otherwise that day, at the hour `HoraDeCita` reads (midnight when it reads none).
   */
  function ObtenerDateCita(fechaStr: string, horaStr: string): (r: Option<FechaHora>)
    ensures r.None? <==> fechaStr == "" || ParseParte(Partir(fechaStr, '-'), 0).None?
                         || ParseParte(Partir(fechaStr, '-'), 1).None? || ParseParte(Partir(fechaStr, '-'), 2).None?
    ensures r.Some? ==> var hm := HoraDeCita(horaStr).GetOr((0, 0));
                        r.value.horas == hm.0 && r.value.minutos == hm.1
  {
    if fechaStr == "" then None
    else
      var partes := Partir(fechaStr, '-');
      var anio, mes, dia := ParseParte(partes, 0), ParseParte(partes, 1), ParseParte(partes, 2);
      if anio.None? || mes.None? || dia.None? then None
      else
        var hm := HoraDeCita(horaStr).GetOr((0, 0));
        Some(FechaHora(anio.value, mes.value - 1, dia.value, hm.0, hm.1))
  }

  /** A text of digits holds no other character. */
  lemma CifrasSinOtro(s: string, c: char)
    requires SoloCifras(s) && !EsDigito(c)
    ensures c !in s
  {
    forall i | 0 <= i < |s| ensures s[i] != c {
      assert EsDigito(s[i]);
    }
  }

  /** Digits, a colon and digits: no space, and nothing for `trim` to remove. */
  lemma CifrasSinBordes(a: string, b: string)
    requires SoloCifras(a) && SoloCifras(b) && a != [] && b != []
    ensures var t := a + ":" + b; Trim(t) == t && ' ' !in t && t != [] && !EsEspacio(t[0])
  {
    var t := a + ":" + b;
    forall i | 0 <= i < |t| ensures t[i] != ' ' {
      if i < |a| {
        assert t[i] == a[i];
      } else if i > |a| {
        assert t[i] == b[i - |a| - 1];
      }
    }
    assert t[0] == a[0] && t[|t| - 1] == b[|b| - 1];
    assert EsDigito(t[0]) && EsDigito(t[|t| - 1]);
    TrimSinBordes(t);
  }

  /** `"HH:MM"` has no space and nothing for `trim` to remove. */
  lemma HoraTextoSinBordes(h: nat, m: nat)
    ensures Trim(HoraTexto(h, m)) == HoraTexto(h, m) && ' ' !in HoraTexto(h, m)
    ensures HoraTexto(h, m) != [] && !EsEspacio(HoraTexto(h, m)[0])
  {
    CifrasSinBordes(Pad2(h), Pad2(m));
  }

  /** `"HH:MM"` reads back as its hour and minutes. */
  lemma LeerHhmmHoraTexto(h: nat, m: nat)
    ensures LeerHhmm(HoraTexto(h, m)) == Some((h as int, m as int))
  {
    LeerHoraTexto(h, m);
  }

  /** A 24-hour `"HH:MM"` without a suffix passes through unchanged. */
  lemma HoraSinSufijo(h: nat, m: nat)
    ensures HoraDeCita(HoraTexto(h, m)) == Some((h as int, m as int))
  {
    var t := HoraTexto(h, m);
    HoraTextoSinBordes(h, m);
    PartirUnir([t], ' ');
    assert Partir(Trim(t), ' ') == [t];
    LeerHhmmHoraTexto(h, m);
    HoraDeUnaParte(t, h, m);
  }

  /** A text that trims to one piece without spaces, read as a time, is taken as it is. */
  lemma HoraDeUnaParte(t: string, h: int, m: int)
    requires t != "" && Partir(Trim(t), ' ') == [t] && LeerHhmm(t) == Some((h, m))
    ensures HoraDeCita(t) == Some((h, m))
  {
    SinSufijo(t);
  }

  lemma SinSufijo(t: string)
    ensures SufijoDe([t]) == "" && forall h :: AjustarSufijo(h, SufijoDe([t])) == h
  {
    assert SufijoDe([t]) == Mayusculas("");
  }

  /** Two separator-free pieces joined by the separator split back into those two pieces. */
  lemma PartirEnDos(a: string, b: string, sep: char)
    requires sep !in a && sep !in b
    ensures Partir(a + [sep] + b, sep) == [a, b]
  {
    assert Unir([a, b], sep) == a + [sep] + b;
    PartirUnir([a, b], sep);
  }

  /** A time followed by a space and a suffix trims to itself and splits at that space. */
  lemma PartirConSufijo(t: string, sufijo: string)
    requires t != [] && !EsEspacio(t[0]) && ' ' !in t
    requires sufijo != [] && ' ' !in sufijo && !EsEspacio(sufijo[|sufijo| - 1])
    ensures Partir(Trim(t + " " + sufijo), ' ') == [t, sufijo]
  {
    var s := t + [' '] + sufijo;
    assert s[0] == t[0] && s[|s| - 1] == sufijo[|sufijo| - 1];
    TrimSinBordes(s);
    PartirEnDos(t, sufijo, ' ');
  }

  /** A readable time followed by a space and a suffix: the suffix, upper-cased, adjusts the hour. */
  lemma HoraConSufijo(s: string, t: string, sufijo: string, h: int, m: int)
    requires t != [] && !EsEspacio(t[0]) && ' ' !in t && LeerHhmm(t) == Some((h, m))
    requires sufijo != [] && ' ' !in sufijo && !EsEspacio(sufijo[|sufijo| - 1])
    requires s == t + " " + sufijo
    ensures HoraDeCita(s) == Some((AjustarSufijo(h, Mayusculas(sufijo)), m))
  {
    PartirConSufijo(t, sufijo);
    HoraDePartes(s, t, sufijo, h, m);
  }

  lemma HoraDePartes(s: string, t: string, sufijo: string, h: int, m: int)
    requires s != "" && Partir(Trim(s), ' ') == [t, sufijo] && LeerHhmm(t) == Some((h, m))
    ensures HoraDeCita(s) == Some((AjustarSufijo(h, Mayusculas(sufijo)), m))
  {
    assert SufijoDe([t, sufijo]) == Mayusculas(sufijo);
  }

  /** `t + " XY"` is `t`, a space, and the two-letter suffix. */
  lemma EspacioYSufijo(t: string, x: char, y: char)
    ensures t + [' ', x, y] == t + " " + [x, y]
  {
  }

  /** A suffix that upper-cases to `"PM"` after an hour before noon adds twelve hours. */
  lemma HoraTarde(s: string, t: string, sufijo: string, h: int, m: int)
    requires t != [] && !EsEspacio(t[0]) && ' ' !in t && LeerHhmm(t) == Some((h, m)) && h < 12
    requires sufijo != [] && ' ' !in sufijo && !EsEspacio(sufijo[|sufijo| - 1]) && Mayusculas(sufijo) == "PM"
    requires s == t + " " + sufijo
    ensures HoraDeCita(s) == Some((h + 12, m))
  {
    HoraConSufijo(s, t, sufijo, h, m);
  }

  /** A suffix that upper-cases to `"AM"` after hour 12 gives hour 0. */
  lemma HoraMedianoche(s: string, t: string, sufijo: string, m: int)
    requires t != [] && !EsEspacio(t[0]) && ' ' !in t && LeerHhmm(t) == Some((12, m))
    requires sufijo != [] && ' ' !in sufijo && !EsEspacio(sufijo[|sufijo| - 1]) && Mayusculas(sufijo) == "AM"
    requires s == t + " " + sufijo
    ensures HoraDeCita(s) == Some((0, m))
  {
    HoraConSufijo(s, t, sufijo, 12, m);
  }

  /** The facts about the three suffixes the calls below need, apart from any hour. */
  lemma SufijosLimpios()
    ensures Mayusculas("PM") == "PM" && Mayusculas("pm") == "PM" && Mayusculas("AM") == "AM"
    ensures ' ' !in "PM" && ' ' !in "pm" && ' ' !in "AM"
    ensures !EsEspacio('M') && !EsEspacio('m')
  {
  }

  /** "PM" before noon adds twelve hours, in either case. */
  lemma HoraPM(h: nat, m: nat)
    requires h < 12
    ensures HoraDeCita(HoraTexto(h, m) + " PM") == Some((h as int + 12, m as int))
    ensures HoraDeCita(HoraTexto(h, m) + " pm") == Some((h as int + 12, m as int))
  {
    HoraPMMayuscula(h, m);
    HoraPMMinuscula(h, m);
  }

  lemma HoraPMMayuscula(h: nat, m: nat)
    requires h < 12
    ensures HoraDeCita(HoraTexto(h, m) + " PM") == Some((h as int + 12, m as int))
  {
    var t := HoraTexto(h, m);
    HoraTextoSinBordes(h, m);
    LeerHhmmHoraTexto(h, m);
    SufijosLimpios();
    EspacioYSufijo(t, 'P', 'M');
    HoraTarde(t + " PM", t, "PM", h, m);
  }

  lemma HoraPMMinuscula(h: nat, m: nat)
    requires h < 12
    ensures HoraDeCita(HoraTexto(h, m) + " pm") == Some((h as int + 12, m as int))
  {
    var t := HoraTexto(h, m);
    HoraTextoSinBordes(h, m);
    LeerHhmmHoraTexto(h, m);
    SufijosLimpios();
    EspacioYSufijo(t, 'p', 'm');
    HoraTarde(t + " pm", t, "pm", h, m);
  }

  /** "12:MM AM" is just after midnight. */
  lemma HoraAM12(m: nat)
    ensures HoraDeCita(HoraTexto(12, m) + " AM") == Some((0, m as int))
  {
    var t := HoraTexto(12, m);
    HoraTextoSinBordes(12, m);
    LeerHhmmHoraTexto(12, m);
    SufijosLimpios();
    EspacioYSufijo(t, 'A', 'M');
    HoraMedianoche(t + " AM", t, "AM", m);
  }

  /** An hour without minutes gets minute 0. */
  lemma HoraSinMinutos(h: nat)
    ensures HoraDeCita(Pad2(h)) == Some((h as int, 0))
  {
    var t := Pad2(h);
    assert EsDigito(t[0]) && EsDigito(t[|t| - 1]);
    TrimSinBordes(t);
    CifrasSinOtro(t, ' ');
    CifrasSinOtro(t, ':');
    PartirUnir([t], ' ');
    PartirUnir([t], ':');
    ParseIntPad2(h, []);
    assert t + [] == t;
    HoraSinDosPuntos(t, h);
    assert Partir(Trim(t), ' ') == [t];
    HoraDeUnaParte(t, h, 0);
  }

  lemma HoraSinDosPuntos(t: string, h: int)
    requires Partir(t, ':') == [t] && ParseInt(t) == Some(h)
    ensures LeerHhmm(t) == Some((h, 0))
  {
  }

  /** Three separator-free pieces joined by the separator split back into those pieces. */
  lemma PartirEnTres(a: string, b: string, c: string, sep: char)
    requires sep !in a && sep !in b && sep !in c
    ensures Partir(a + [sep] + b + [sep] + c, sep) == [a, b, c]
  {
    assert [a, b, c][1..] == [b, c] && [b, c][1..] == [c];
    assert Unir([b, c], sep) == b + [sep] + c;
    assert Unir([a, b, c], sep) == a + [sep] + (b + [sep] + c);
    assert a + [sep] + (b + [sep] + c) == a + [sep] + b + [sep] + c;
    PartirUnir([a, b, c], sep);
  }

  lemma CamposDeFecha(fechaStr: string, horaStr: string, anio: int, mes: int, dia: int, hm: (int, int))
    requires fechaStr != [] && ParseParte(Partir(fechaStr, '-'), 0) == Some(anio)
    requires ParseParte(Partir(fechaStr, '-'), 1) == Some(mes) && ParseParte(Partir(fechaStr, '-'), 2) == Some(dia)
    requires HoraDeCita(horaStr).GetOr((0, 0)) == hm
    ensures var r := ObtenerDateCita(fechaStr, horaStr);
            r.Some? && r.value.anio == anio && r.value.mes == mes - 1 && r.value.dia == dia
            && r.value.horas == hm.0 && r.value.minutos == hm.1
  {
  }

  /** A date whose three pieces read as numbers, at the hour `HoraDeCita` reads or midnight. */
  lemma FechaDePartes(fechaStr: string, horaStr: string, anio: int, mes: int, dia: int, hm: (int, int))
    requires fechaStr != [] && ParseParte(Partir(fechaStr, '-'), 0) == Some(anio)
    requires ParseParte(Partir(fechaStr, '-'), 1) == Some(mes) && ParseParte(Partir(fechaStr, '-'), 2) == Some(dia)
    requires HoraDeCita(horaStr).GetOr((0, 0)) == hm
    ensures ObtenerDateCita(fechaStr, horaStr) == Some(FechaHora(anio, mes - 1, dia, hm.0, hm.1))
  {
    CamposDeFecha(fechaStr, horaStr, anio, mes, dia, hm);
  }

  /** Three dash-free pieces that read as numbers, joined by dashes, at the hour `HoraDeCita` reads. */
  lemma FechaDeTextos(a: string, b: string, c: string, horaStr: string, anio: int, mes: int, dia: int, hm: (int, int))
    requires '-' !in a && '-' !in b && '-' !in c
    requires ParseInt(a) == Some(anio) && ParseInt(b) == Some(mes) && ParseInt(c) == Some(dia)
    requires HoraDeCita(horaStr).GetOr((0, 0)) == hm
    ensures ObtenerDateCita(a + "-" + b + "-" + c, horaStr) == Some(FechaHora(anio, mes - 1, dia, hm.0, hm.1))
  {
    var fechaStr := a + "-" + b + "-" + c;
    assert fechaStr == a + ['-'] + b + ['-'] + c;
    PartirEnTres(a, b, c, '-');
    PartesLeidas(Partir(fechaStr, '-'), a, b, c, anio, mes, dia);
    FechaDePartes(fechaStr, horaStr, anio, mes, dia, hm);
  }

  lemma PartesLeidas(p: seq<string>, a: string, b: string, c: string, anio: int, mes: int, dia: int)
    requires p == [a, b, c]
    requires ParseInt(a) == Some(anio) && ParseInt(b) == Some(mes) && ParseInt(c) == Some(dia)
    ensures ParseParte(p, 0) == Some(anio) && ParseParte(p, 1) == Some(mes) && ParseParte(p, 2) == Some(dia)
  {
  }

  /** A `"YYYY-MM-DD"` date and a 24-hour time are read back as the day and time they name. */
  lemma FechaLegible(anio: nat, mes: nat, dia: nat, h: nat, m: nat)
    ensures ObtenerDateCita(NatATexto(anio) + "-" + Pad2(mes) + "-" + Pad2(dia), HoraTexto(h, m))
            == Some(FechaHora(anio, mes - 1, dia, h, m))
  {
    CifrasSinOtro(NatATexto(anio), '-');
    CifrasSinOtro(Pad2(mes), '-');
    CifrasSinOtro(Pad2(dia), '-');
    ParseIntNatATexto(anio, []);
    ParseIntPad2(mes, []);
    ParseIntPad2(dia, []);
    assert NatATexto(anio) + [] == NatATexto(anio) && Pad2(mes) + [] == Pad2(mes) && Pad2(dia) + [] == Pad2(dia);
    HoraSinSufijo(h, m);
    FechaDeTextos(NatATexto(anio), Pad2(mes), Pad2(dia), HoraTexto(h, m), anio, mes, dia, (h, m));
  }

  /** `esCancelada || esCompletada` on `String(cita.estado || "").toLowerCase()`. */
  predicate Cerrada(estado: string) {
    var e := Minusculas(estado);
    e == "cancelada" || e == "completada" || e == "finalizada"
  }

  /** The appointments the "upcoming" tab shows: a readable date, not past, and not closed. */
  predicate EsProxima(c: CitaPublica, ahora: int, tiempo: FechaHora -> int) {
    var f := ObtenerDateCita(c.fecha, c.hora);
    f.Some? && tiempo(f.value) >= ahora && !Cerrada(c.estado)
  }

  /** `_fechaHoraOrden?.getTime() || 0`: the time stamp, or 0 for an unreadable date. */
  function ClaveOrden(c: CitaPublica, tiempo: FechaHora -> int): int {
    var f := ObtenerDateCita(c.fecha, c.hora);
    if f.Some? then tiempo(f.value) else 0
  }

  /**
   * The `useMemo` that fills `citasProximas` and `citasHistorial`: every appointment goes to
   * exactly one list; upcoming ones are sorted soonest first, past and closed ones most recent
   * first. The sort key is recomputed from the appointment, so no extra field is ever added.
   */
  method SepararCitas(citas: seq<CitaPublica>, ahora: int, tiempo: FechaHora -> int)
    returns (proximas: seq<CitaPublica>, historial: seq<CitaPublica>)
    ensures multiset(proximas) + multiset(historial) == multiset(citas)
    ensures forall c | c in proximas :: EsProxima(c, ahora, tiempo)
    ensures forall c | c in historial :: !EsProxima(c, ahora, tiempo)
    ensures forall c | c in citas && ObtenerDateCita(c.fecha, c.hora).None? :: c in historial
    ensures forall i, j | 0 <= i < j < |proximas| :: ClaveOrden(proximas[i], tiempo) <= ClaveOrden(proximas[j], tiempo)
    ensures forall i, j | 0 <= i < j < |historial| :: ClaveOrden(historial[i], tiempo) >= ClaveOrden(historial[j], tiempo)
  {
    proximas, historial := Repartir(citas, c => EsProxima(c, ahora, tiempo));
    ghost var p0, h0 := proximas, historial;
    proximas := Ordenar(proximas, c => ClaveOrden(c, tiempo));
    historial := Ordenar(historial, c => -ClaveOrden(c, tiempo));
    MismosMiembros(p0, proximas);
    MismosMiembros(h0, historial);
    SinFechaAlHistorial(citas, proximas, historial, ahora, tiempo);
  }

  /** The loop of the `useMemo`: each appointment, in order, to the upcoming list or to the history. */
  method Repartir(citas: seq<CitaPublica>, esProxima: CitaPublica -> bool)
    returns (proximas: seq<CitaPublica>, historial: seq<CitaPublica>)
    ensures multiset(proximas) + multiset(historial) == multiset(citas)
    ensures forall c | c in proximas :: esProxima(c)
    ensures forall c | c in historial :: !esProxima(c)
  {
    proximas, historial := [], [];
    for i := 0 to |citas|
      invariant multiset(proximas) + multiset(historial) == multiset(citas[..i])
      invariant forall c | c in proximas :: esProxima(c)
      invariant forall c | c in historial :: !esProxima(c)
    {
      MultisetPrefijoSiguiente(citas, i);
      if esProxima(citas[i]) {
        proximas := proximas + [citas[i]];
      } else {
        historial := historial + [citas[i]];
      }
    }
    assert citas[..|citas|] == citas;
  }

  /** An appointment without a readable date is never upcoming, so a split puts it in the history. */
  lemma SinFechaAlHistorial(citas: seq<CitaPublica>, proximas: seq<CitaPublica>, historial: seq<CitaPublica>,
                            ahora: int, tiempo: FechaHora -> int)
    requires multiset(proximas) + multiset(historial) == multiset(citas)
    requires forall c | c in proximas :: EsProxima(c, ahora, tiempo)
    ensures forall c | c in citas && ObtenerDateCita(c.fecha, c.hora).None? :: c in historial
  {
    forall c | c in citas && ObtenerDateCita(c.fecha, c.hora).None? ensures c in historial {
      assert c in multiset(citas);
      assert c !in proximas;
      assert c !in multiset(proximas);
    }
  }

  /** `obtenerEtiquetaEstado`. */
  function ObtenerEtiquetaEstado(estado: string): (r: string)
    ensures r == "Finalizada" <==> Minusculas(estado) == "completada" || Minusculas(estado) == "finalizada"
    ensures r == "Cancelada" <==> Minusculas(estado) == "cancelada"
    ensures r == "Pendiente" <==> !Cerrada(estado)
  {
    var e := Minusculas(estado);
    if e == "completada" || e == "finalizada" then "Finalizada"
    else if e == "cancelada" then "Cancelada"
    else "Pendiente"
  }

  /**
   * The label agrees with the split: an upcoming appointment is always labelled "Pendiente";
   * the states the server writes get their own labels.
   */
  lemma EtiquetasDeLosEstados(c: CitaPublica, ahora: int, tiempo: FechaHora -> int)
    ensures EsProxima(c, ahora, tiempo) ==> ObtenerEtiquetaEstado(c.estado) == "Pendiente"
    ensures ObtenerEtiquetaEstado(ACTIVA) == "Pendiente"
    ensures ObtenerEtiquetaEstado(CANCELADA) == "Cancelada"
    ensures ObtenerEtiquetaEstado(FINALIZADA) == "Finalizada"
  {
    assert Minusculas(ACTIVA) == ACTIVA;
    assert Minusculas(CANCELADA) == CANCELADA;
    assert Minusculas(FINALIZADA) == FINALIZADA;
  }
}
