/**
 * The schedule page `AdminHorariosPage.jsx`: the half-hour slot generator behind the hour
 * selectors, and the edits of the selected day's "closed" flag and hour exception.
 */
module AdminHorarios {
  import opened Wrappers
  import opened Texto
  import opened Validacion

  /** Minutes since midnight of `h:m`. */
  function Minutos(h: nat, m: nat): nat {
    h * 60 + m
  }

  /** One turn of the generator's loop: thirty minutes on, carrying into the hour once. */
  function Paso(h: nat, m: nat): (nat, nat) {
    if m + 30 >= 60 then (h + 1, m + 30 - 60) else (h, m + 30)
  }

  /** `(h, m)` after `k` turns of the loop started at `(iniH, iniM)`. */
  function Iterar(iniH: nat, iniM: nat, k: nat): (r: (nat, nat))
    ensures Minutos(r.0, r.1) == Minutos(iniH, iniM) + 30 * k
    ensures iniM < 60 ==> r.1 < 60
    decreases k
  {
    if k == 0 then (iniH, iniM) else var p := Iterar(iniH, iniM, k - 1); Paso(p.0, p.1)
  }

  /** The text written on turn `k`. */
  function Slot(iniH: nat, iniM: nat, k: nat): string {
    HoraTexto(Iterar(iniH, iniM, k).0, Iterar(iniH, iniM, k).1)
  }

  /** The time, in minutes, of turn `k`. */
  function MinutosSlot(iniH: nat, iniM: nat, k: nat): nat {
    Minutos(Iterar(iniH, iniM, k).0, Iterar(iniH, iniM, k).1)
  }

  /** ⌊(fin − inicio) / 30⌋ + 1 slots when inicio ≤ fin, none otherwise. */
  function CantidadSlots(inicio: nat, fin: nat): nat {
    if inicio <= fin then (fin - inicio) / 30 + 1 else 0
  }

  /** A loop that stops after `n` turns, at the first time past `fin`, has made `CantidadSlots` turns. */
  lemma CantidadAlParar(inicio: nat, fin: nat, n: nat)
    requires inicio + 30 * n > fin
    requires n > 0 ==> inicio + 30 * (n - 1) <= fin
    ensures n == CantidadSlots(inicio, fin)
  {
    if n > 0 {
      var d := fin - inicio;
      var q, r := d / 30, d % 30;
      assert d == 30 * q + r && 0 <= r < 30;
      assert q == n - 1;
    }
  }

  /** The first `|slots|` turns of the loop, written down, none of them past `fin`. */
  ghost predicate SlotsHasta(slots: seq<string>, iniH: nat, iniM: nat, fin: nat) {
    forall k | 0 <= k < |slots| :: slots[k] == Slot(iniH, iniM, k) && MinutosSlot(iniH, iniM, k) <= fin
  }

  lemma SlotsHastaPaso(slots: seq<string>, iniH: nat, iniM: nat, fin: nat, h: nat, m: nat)
    requires SlotsHasta(slots, iniH, iniM, fin)
    requires (h, m) == Iterar(iniH, iniM, |slots|) && Minutos(h, m) <= fin
    ensures SlotsHasta(slots + [HoraTexto(h, m)], iniH, iniM, fin)
  {
    var s' := slots + [HoraTexto(h, m)];
    assert Slot(iniH, iniM, |slots|) == HoraTexto(h, m);
    assert MinutosSlot(iniH, iniM, |slots|) == Minutos(h, m);
    forall k | 0 <= k < |s'| ensures s'[k] == Slot(iniH, iniM, k) && MinutosSlot(iniH, iniM, k) <= fin {
      if k < |slots| {
        assert s'[k] == slots[k];
      } else {
        assert k == |slots| && s'[k] == HoraTexto(h, m);
      }
    }
  }

  /**
   * `generarSlotsHorario30m`, given the numbers `inicio.split(":").map(Number)` and the same for
   * `fin` produce: every thirty minutes from `inicio` up to `fin` inclusive, as `"HH:MM"`.
   */
  method GenerarSlotsHorario30m(iniH: nat, iniM: nat, finH: nat, finM: nat) returns (slots: seq<string>)
    ensures |slots| == CantidadSlots(Minutos(iniH, iniM), Minutos(finH, finM))
    ensures SlotsHasta(slots, iniH, iniM, Minutos(finH, finM))
    ensures Minutos(iniH, iniM) <= Minutos(finH, finM) ==> |slots| >= 1 && slots[0] == HoraTexto(iniH, iniM)
  {
    slots := [];
    var h: nat, m: nat := iniH, iniM;
    var finTotalMin := finH * 60 + finM;
    while h * 60 + m <= finTotalMin
      invariant GeneradorEn(slots, iniH, iniM, finTotalMin, h, m)
      decreases finTotalMin + 1 - (h * 60 + m)
    {
      slots, h, m := AvanzarMediaHora(slots, iniH, iniM, finTotalMin, h, m);
    }
    CantidadAlParar(Minutos(iniH, iniM), finTotalMin, |slots|);
  }

  /** What the generator's loop holds before each turn. */
  ghost predicate GeneradorEn(slots: seq<string>, iniH: nat, iniM: nat, fin: nat, h: nat, m: nat) {
    (h, m) == Iterar(iniH, iniM, |slots|)
    && SlotsHasta(slots, iniH, iniM, fin)
    && (|slots| > 0 ==> Minutos(iniH, iniM) + 30 * (|slots| - 1) <= fin)
  }

  /** One turn of the loop: the current time written down, then thirty minutes on. */
  method AvanzarMediaHora(slots: seq<string>, iniH: nat, iniM: nat, fin: nat, h: nat, m: nat)
    returns (slots': seq<string>, h': nat, m': nat)
    requires GeneradorEn(slots, iniH, iniM, fin, h, m) && h * 60 + m <= fin
    ensures GeneradorEn(slots', iniH, iniM, fin, h', m') && h' * 60 + m' == h * 60 + m + 30
    ensures slots' == slots + [HoraTexto(h, m)]
  {
    GeneradorPaso(slots, iniH, iniM, fin, h, m);
    slots' := slots + [HoraTexto(h, m)];
    h', m' := h, m + 30;
    if m' >= 60 {
      m' := m' - 60;
      h' := h' + 1;
    }
    assert (h', m') == Paso(h, m);
  }

  lemma GeneradorPaso(slots: seq<string>, iniH: nat, iniM: nat, fin: nat, h: nat, m: nat)
    requires GeneradorEn(slots, iniH, iniM, fin, h, m) && Minutos(h, m) <= fin
    ensures GeneradorEn(slots + [HoraTexto(h, m)], iniH, iniM, fin, Paso(h, m).0, Paso(h, m).1)
  {
    SlotsHastaPaso(slots, iniH, iniM, fin, h, m);
    PasoSiguiente(iniH, iniM, |slots|, h, m);
    assert |slots + [HoraTexto(h, m)]| == |slots| + 1;
  }

  /** Later slots are exactly thirty minutes per turn apart, so the times strictly increase. */
  lemma SlotsCadaMediaHora(iniH: nat, iniM: nat, j: nat, k: nat)
    requires j < k
    ensures MinutosSlot(iniH, iniM, k) == MinutosSlot(iniH, iniM, j) + 30 * (k - j)
    ensures MinutosSlot(iniH, iniM, j) < MinutosSlot(iniH, iniM, k)
  {
  }

  /**
   * The selectors' options, `generarSlotsHorario30m("09:00", "20:00")`: 23 slots, each a valid
   * 24-hour time that `split(":")` and `parseInt` read back as the time it stands for.
   */
  lemma OpcionesHorario()
    ensures CantidadSlots(Minutos(9, 0), Minutos(20, 0)) == 23
    ensures forall k | 0 <= k < 23 ::
              var p := Iterar(9, 0, k);
              p.0 < 24 && p.1 < 60 && EsHora24(Slot(9, 0, k))
              && Partir(Slot(9, 0, k), ':') == [Pad2(p.0), Pad2(p.1)]
              && ParseInt(Pad2(p.0)) == Some(p.0 as int) && ParseInt(Pad2(p.1)) == Some(p.1 as int)
  {
    forall k | 0 <= k < 23
      ensures var p := Iterar(9, 0, k);
              p.0 < 24 && p.1 < 60 && EsHora24(Slot(9, 0, k))
              && Partir(Slot(9, 0, k), ':') == [Pad2(p.0), Pad2(p.1)]
              && ParseInt(Pad2(p.0)) == Some(p.0 as int) && ParseInt(Pad2(p.1)) == Some(p.1 as int)
    {
      var p := Iterar(9, 0, k);
      assert p.0 * 60 + p.1 == 540 + 30 * k;
      SlotEn(9, 0, k, p.0, p.1);
      SlotLegible(Slot(9, 0, k), p.0, p.1);
    }
  }

  /** The text of a time of day before 24:00 passes the hour check and reads back as that time. */
  lemma SlotLegible(t: string, h: nat, m: nat)
    requires h < 24 && m < 60 && t == HoraTexto(h, m)
    ensures EsHora24(t) && Partir(t, ':') == [Pad2(h), Pad2(m)]
    ensures ParseInt(Pad2(h)) == Some(h as int) && ParseInt(Pad2(m)) == Some(m as int)
  {
    HoraDelDiaEsHora24(h, m);
    LeerHoraTexto(h, m);
  }

  /** One more turn of the loop from the pair of turn `k` gives the pair of turn `k + 1`. */
  lemma PasoSiguiente(iniH: nat, iniM: nat, k: nat, h: nat, m: nat)
    requires (h, m) == Iterar(iniH, iniM, k)
    ensures Paso(h, m) == Iterar(iniH, iniM, k + 1)
  {
  }

  /** Turn `k` writes the text of the `(h, m)` the loop holds on that turn. */
  lemma SlotEn(iniH: nat, iniM: nat, k: nat, h: nat, m: nat)
    requires (h, m) == Iterar(iniH, iniM, k)
    ensures Slot(iniH, iniM, k) == HoraTexto(h, m) && MinutosSlot(iniH, iniM, k) == Minutos(h, m)
  {
  }

  /** An hour exception of a day; `""` stands for a field that is not set. */
  datatype Excepcion = Excepcion(inicio: string, fin: string)

  datatype Campo = Inicio | Fin

  /**
   * The page's day state: the closed days and the per-day hour exceptions. The edits take
   * `seleccion`, the key of the selected date, `""` when none is selected.
   */
  datatype EstadoDias = EstadoDias(cerrados: set<string>, excepciones: map<string, Excepcion>)

  /** `manejarCambioCerrarDia(checked)`. */
  function CambiarCerrarDia(e: EstadoDias, seleccion: string, checked: bool): (r: EstadoDias)
    ensures seleccion == "" ==> r == e
    ensures seleccion != "" ==> (seleccion in r.cerrados <==> checked)
    ensures seleccion != "" && checked ==> seleccion !in r.excepciones
    ensures forall k | k != seleccion :: (k in r.cerrados <==> k in e.cerrados)
    ensures forall k | k != seleccion :: (k in r.excepciones <==> k in e.excepciones)
    ensures forall k | k in r.excepciones :: k in e.excepciones && r.excepciones[k] == e.excepciones[k]
    ensures !checked ==> r.excepciones == e.excepciones
  {
    if seleccion == "" then e
    else if checked then EstadoDias(e.cerrados + {seleccion}, e.excepciones - {seleccion})
    else EstadoDias(e.cerrados - {seleccion}, e.excepciones)
  }

  /** `manejarCambioExcepcion(campo, valor)`. */
  function CambiarExcepcion(e: EstadoDias, seleccion: string, campo: Campo, valor: string): (r: EstadoDias)
    ensures r.cerrados == e.cerrados
    ensures seleccion == "" ==> r == e
    ensures forall k | k != seleccion :: (k in r.excepciones <==> k in e.excepciones)
    ensures forall k | k != seleccion && k in r.excepciones :: r.excepciones[k] == e.excepciones[k]
    ensures seleccion != "" ==>
              var actual := if seleccion in e.excepciones then e.excepciones[seleccion] else Excepcion("", "");
              var nuevo := if campo == Inicio then actual.(inicio := valor) else actual.(fin := valor);
              (seleccion in r.excepciones <==> nuevo.inicio != "" || nuevo.fin != "")
              && (seleccion in r.excepciones ==> r.excepciones[seleccion] == nuevo)
  {
    if seleccion == "" then e
    else
      var actual := if seleccion in e.excepciones then e.excepciones[seleccion] else Excepcion("", "");
      var nuevo := match campo case Inicio => actual.(inicio := valor) case Fin => actual.(fin := valor);
      if nuevo.inicio == "" && nuevo.fin == "" then EstadoDias(e.cerrados, e.excepciones - {seleccion})
      else EstadoDias(e.cerrados, e.excepciones[seleccion := nuevo])
  }

  /** No closed day keeps an hour exception, and no exception is empty. */
  ghost predicate Consistente(e: EstadoDias) {
    (forall k | k in e.excepciones :: k !in e.cerrados)
    && forall k | k in e.excepciones :: e.excepciones[k].inicio != "" || e.excepciones[k].fin != ""
  }

  /**
   * Both edits keep the day state consistent; the exception inputs are disabled while the
   * selected day is closed, so an exception is only edited for an open day.
   */
  lemma EdicionesConsistentes(e: EstadoDias, seleccion: string, checked: bool, campo: Campo, valor: string)
    requires Consistente(e)
    ensures Consistente(CambiarCerrarDia(e, seleccion, checked))
    ensures seleccion !in e.cerrados ==> Consistente(CambiarExcepcion(e, seleccion, campo, valor))
  {
  }

  /** Closing a day and opening it again leaves the closed days as they were and drops its exception. */
  lemma CerrarYAbrir(e: EstadoDias, seleccion: string)
    requires seleccion != "" && seleccion !in e.cerrados
    ensures var r := CambiarCerrarDia(CambiarCerrarDia(e, seleccion, true), seleccion, false);
            r.cerrados == e.cerrados && r.excepciones == e.excepciones - {seleccion}
  {
  }

  /** Clearing both fields of the selected day's exception removes it. */
  lemma BorrarExcepcion(e: EstadoDias, seleccion: string)
    requires seleccion != ""
    ensures seleccion !in CambiarExcepcion(CambiarExcepcion(e, seleccion, Inicio, ""), seleccion, Fin, "").excepciones
  {
  }
}
