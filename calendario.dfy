/**
 * The month grids of the pages. A cell is `None` for a leading blank and `Some(d)` for the date of
 * day `d` of the month; what the JavaScript `Date` supplies (the weekday of the 1st, the number of
 * days in the month) comes in as numbers.
 */
module Calendario {
  import opened Wrappers

  /** `huecos` blanks, then the days 1..`total` in order, and nothing else. */
  ghost predicate Cuadricula(celdas: seq<Option<nat>>, huecos: nat, total: nat) {
    |celdas| == huecos + total
    && (forall i | 0 <= i < huecos :: celdas[i] == None)
    && (forall i | huecos <= i < |celdas| :: celdas[i] == Some(i - huecos + 1))
  }

  /** The Sunday-based weekday (0 = Sunday) of day `d`, when the 1st falls on `diaDelUno`. */
  function DiaDeLaSemana(diaDelUno: nat, d: nat): nat
    requires d >= 1
  {
    (diaDelUno + d - 1) % 7
  }

  /**
   * `generarCalendario` of the admin pages (Monday first): `getDay()` of the 1st, with Sunday moved
   * to 7, gives `diaSemana - 1` blanks, then one cell per day.
   */
  method GenerarCalendario(diaDelUno: nat, totalDias: nat) returns (celdas: seq<Option<nat>>)
    requires diaDelUno < 7
    ensures Cuadricula(celdas, if diaDelUno == 0 then 6 else diaDelUno - 1, totalDias)
    ensures |celdas| - totalDias < 7
  {
    var diaSemana := diaDelUno;
    if diaSemana == 0 {
      diaSemana := 7;
    }
    celdas := [];
    var i := 1;
    while i < diaSemana
      invariant 1 <= i <= diaSemana
      invariant |celdas| == i - 1
      invariant forall k | 0 <= k < |celdas| :: celdas[k] == None
    {
      celdas := celdas + [None];
      i := i + 1;
    }
    var d := 1;
    while d <= totalDias
      invariant 1 <= d <= totalDias + 1
      invariant |celdas| == diaSemana - 1 + d - 1
      invariant forall k | 0 <= k < diaSemana - 1 :: celdas[k] == None
      invariant forall k | diaSemana - 1 <= k < |celdas| :: celdas[k] == Some(k - (diaSemana - 1) + 1)
    {
      celdas := celdas + [Some(d)];
      d := d + 1;
    }
  }

  /** In the Monday-first grid every day sits in the column of its weekday (Monday 0 … Sunday 6). */
  lemma ColumnaLunes(celdas: seq<Option<nat>>, diaDelUno: nat, totalDias: nat)
    requires diaDelUno < 7
    requires Cuadricula(celdas, if diaDelUno == 0 then 6 else diaDelUno - 1, totalDias)
    ensures forall i | 0 <= i < |celdas| && celdas[i].Some? ::
              celdas[i].value >= 1 && i % 7 == (DiaDeLaSemana(diaDelUno, celdas[i].value) + 6) % 7
  {
    var huecos := if diaDelUno == 0 then 6 else diaDelUno - 1;
    forall i | 0 <= i < |celdas| && celdas[i].Some?
      ensures celdas[i].value >= 1 && i % 7 == (DiaDeLaSemana(diaDelUno, celdas[i].value) + 6) % 7
    {
      var d := i - huecos + 1;
      assert celdas[i] == Some(d);
      assert (diaDelUno + d - 1) - 7 * ((diaDelUno + d - 1) / 7) == (diaDelUno + d - 1) % 7;
    }
  }

  /** `generarDiasDelMes` of the booking page (Sunday first): `getDay()` of the 1st blanks, then the days. */
  method GenerarDiasDelMes(inicioSemana: nat, totalDias: nat) returns (dias: seq<Option<nat>>)
    requires inicioSemana < 7
    ensures Cuadricula(dias, inicioSemana, totalDias)
  {
    dias := [];
    for i := 0 to inicioSemana
      invariant |dias| == i
      invariant forall k | 0 <= k < |dias| :: dias[k] == None
    {
      dias := dias + [None];
    }
    for d := 1 to totalDias + 1
      invariant |dias| == inicioSemana + d - 1
      invariant forall k | 0 <= k < inicioSemana :: dias[k] == None
      invariant forall k | inicioSemana <= k < |dias| :: dias[k] == Some(k - inicioSemana + 1)
    {
      dias := dias + [Some(d)];
    }
  }

  /** In the Sunday-first grid every day sits in the column of its weekday (Sunday 0 … Saturday 6). */
  lemma ColumnaDomingo(dias: seq<Option<nat>>, inicioSemana: nat, totalDias: nat)
    requires inicioSemana < 7
    requires Cuadricula(dias, inicioSemana, totalDias)
    ensures forall i | 0 <= i < |dias| && dias[i].Some? ::
              dias[i].value >= 1 && i % 7 == DiaDeLaSemana(inicioSemana, dias[i].value)
  {
    forall i | 0 <= i < |dias| && dias[i].Some?
      ensures dias[i].value >= 1 && i % 7 == DiaDeLaSemana(inicioSemana, dias[i].value)
    {
      assert dias[i] == Some(i - inicioSemana + 1);
    }
  }
}
