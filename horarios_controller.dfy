/**
 * The schedule singleton of `horariosController.js`: the `"config-global"` document of
 * `config_horarios`, which holds the weekly schedule and the normalised list of blocked days.
 */
module Horarios {
  import opened Wrappers
  import opened Listas
  import opened Almacen

  const ID_CONFIG := "config-global"

  /**
   * The JavaScript `Date`, as far as `normalizarFechaISO` uses it: `parse` is `new Date(v).getTime()`,
   * `None` for NaN; `iso` is `toISOString()` of a valid time value.
   */
  datatype Reloj = Reloj(parse: string -> Option<int>, iso: int -> string)

  /** `normalizarFechaISO`: `null` for an invalid date, else the first ten characters of the ISO form. */
  function NormalizarFechaISO(valor: string, reloj: Reloj): (r: Option<string>)
    ensures r.None? <==> reloj.parse(valor).None?
    ensures r.Some? ==> var iso := reloj.iso(reloj.parse(valor).value);
                        |r.value| <= 10 && |r.value| <= |iso| && r.value == iso[..|r.value|]
    ensures r.Some? && |reloj.iso(reloj.parse(valor).value)| >= 10 ==> |r.value| == 10
  {
    match reloj.parse(valor)
    case None => None
    case Some(t) => Some(Tomar(reloj.iso(t), 10))
  }

  /** `!!d` on a string. */
  predicate Verdadera(d: string) {
    d != ""
  }

  /** `.map(normalizarFechaISO)`, with `null` written as `""`: the filter that follows drops both. */
  function Leidas(s: seq<string>, reloj: Reloj): seq<string> {
    seq(|s|, i requires 0 <= i < |s| => NormalizarFechaISO(s[i], reloj).GetOr(""))
  }

  lemma LeidasCola(s: seq<string>, reloj: Reloj)
    requires s != []
    ensures Leidas(s, reloj) == [NormalizarFechaISO(s[0], reloj).GetOr("")] + Leidas(s[1..], reloj)
  {
    var l, c := Leidas(s, reloj), Leidas(s[1..], reloj);
    assert forall i | 1 <= i < |l| :: l[i] == c[i - 1];
  }

  /** `.map(normalizarFechaISO).filter((d) => !!d)`: the normalised values that are present and non-empty, in order. */
  function NormalizarPresentes(s: seq<string>, reloj: Reloj): (r: seq<string>)
    ensures r == Filtrar(Leidas(s, reloj), Verdadera)
    ensures forall x | x in r :: x != "" && exists d | d in s :: NormalizarFechaISO(d, reloj) == Some(x)
    ensures forall d | d in s :: NormalizarFechaISO(d, reloj).Some? && NormalizarFechaISO(d, reloj).value != "" ==>
              NormalizarFechaISO(d, reloj).value in r
    decreases |s|
  {
    if s == [] then []
    else
      var resto := NormalizarPresentes(s[1..], reloj);
      LeidasCola(s, reloj);
      match NormalizarFechaISO(s[0], reloj)
      case Some(x) =>
        if x != "" then
          assert forall y | y in resto :: exists d | d in s :: NormalizarFechaISO(d, reloj) == Some(y) by {
            forall y | y in resto ensures exists d | d in s :: NormalizarFechaISO(d, reloj) == Some(y) {
              var d :| d in s[1..] && NormalizarFechaISO(d, reloj) == Some(y);
              assert d in s;
            }
          }
          [x] + resto
        else
          assert forall y | y in resto :: exists d | d in s :: NormalizarFechaISO(d, reloj) == Some(y) by {
            forall y | y in resto ensures exists d | d in s :: NormalizarFechaISO(d, reloj) == Some(y) {
              var d :| d in s[1..] && NormalizarFechaISO(d, reloj) == Some(y);
              assert d in s;
            }
          }
          resto
      case None =>
        assert forall y | y in resto :: exists d | d in s :: NormalizarFechaISO(d, reloj) == Some(y) by {
          forall y | y in resto ensures exists d | d in s :: NormalizarFechaISO(d, reloj) == Some(y) {
            var d :| d in s[1..] && NormalizarFechaISO(d, reloj) == Some(y);
            assert d in s;
          }
        }
        resto
  }

  /**
   * The blocked list `guardarConfiguracionHorarios` stores: falsy entries dropped, the rest
   * normalised, failures dropped, and duplicates removed keeping first occurrences.
   */
  function DiasNormalizados(s: seq<string>, reloj: Reloj): (r: seq<string>)
    ensures SinDuplicados(r)
    ensures var l := Filtrar(Leidas(Filtrar(s, Verdadera), reloj), Verdadera);
            (forall x :: x in r <==> x in l)
            && forall i, j | 0 <= i < j < |r| :: PrimerIndice(l, r[i]) < PrimerIndice(l, r[j])
    ensures forall x | x in r :: x != "" && exists d | d in s :: d != "" && NormalizarFechaISO(d, reloj) == Some(x)
    ensures forall d | d in s && d != "" :: NormalizarFechaISO(d, reloj).Some? && NormalizarFechaISO(d, reloj).value != "" ==>
              NormalizarFechaISO(d, reloj).value in r
  {
    var verdaderas := Filtrar(s, Verdadera);
    var r := Dedup(NormalizarPresentes(verdaderas, reloj));
    assert forall x | x in r :: x != "" && exists d | d in s :: d != "" && NormalizarFechaISO(d, reloj) == Some(x) by {
      forall x | x in r ensures x != "" && exists d | d in s :: d != "" && NormalizarFechaISO(d, reloj) == Some(x) {
        var d :| d in verdaderas && NormalizarFechaISO(d, reloj) == Some(x);
        var i :| 0 <= i < |verdaderas| && verdaderas[i] == d;
        assert Verdadera(verdaderas[i]);
      }
    }
    r
  }

  lemma {:induction false} NormalizarPresentesFijo(s: seq<string>, reloj: Reloj)
    requires forall i | 0 <= i < |s| :: s[i] != "" && NormalizarFechaISO(s[i], reloj) == Some(s[i])
    ensures NormalizarPresentes(s, reloj) == s
    decreases |s|
  {
    if s != [] {
      NormalizarPresentesFijo(s[1..], reloj);
    }
  }

  /**
   * Saving the stored list again stores it unchanged, provided the date normalisation maps each
   * stored day to itself (as it does for a "YYYY-MM-DD" string in a UTC environment).
   */
  lemma DiasNormalizadosIdempotente(s: seq<string>, reloj: Reloj)
    requires forall x | x in DiasNormalizados(s, reloj) :: NormalizarFechaISO(x, reloj) == Some(x)
    ensures DiasNormalizados(DiasNormalizados(s, reloj), reloj) == DiasNormalizados(s, reloj)
  {
    var r := DiasNormalizados(s, reloj);
    assert forall i | 0 <= i < |r| :: r[i] in r;
    FiltrarTodos(r, Verdadera);
    NormalizarPresentesFijo(r, reloj);
    DedupSinDuplicados(r);
  }

  /** The de-duplication step alone is idempotent, whatever the normalisation does. */
  lemma DeduplicarIdempotente(s: seq<string>, reloj: Reloj)
    ensures Dedup(DiasNormalizados(s, reloj)) == DiasNormalizados(s, reloj)
  {
    DedupSinDuplicados(DiasNormalizados(s, reloj));
  }

  /** The document `obtenerConfiguracionHorarios` creates when there is none. */
  function ConfigPorDefecto(ahora: int): ConfigHorarios {
    ConfigHorarios(Some([]), Some([]), ahora)
  }

  /** `GET /api/horarios` (obtenerConfiguracionHorarios): get-or-create, then the arrays or `[]`. */
  method ObtenerConfiguracionHorarios(db: Db, ahora: int) returns (horariosSemana: seq<HorarioDia>, diasNoDisponibles: seq<string>)
    modifies db`configHorarios
    ensures old(db.configHorarios).Some? ==> unchanged(db)
    ensures old(db.configHorarios).None? ==> db.configHorarios == Some(ConfigPorDefecto(ahora))
    ensures horariosSemana == db.configHorarios.value.horariosSemana.GetOr([])
    ensures diasNoDisponibles == db.configHorarios.value.diasNoDisponibles.GetOr([])
  {
    if db.configHorarios.None? {
      db.configHorarios := Some(ConfigPorDefecto(ahora));
    }
    var config := db.configHorarios.value;
    horariosSemana := config.horariosSemana.GetOr([]);
    diasNoDisponibles := config.diasNoDisponibles.GetOr([]);
  }

  /**
   * `PUT /api/horarios` (guardarConfiguracionHorarios): `None` stands for a body value that is not
   * an array. Both fields and the time stamp are replaced through an upsert; the response
   * carries the stored list.
   */
  method GuardarConfiguracionHorarios(db: Db, horariosSemana: Option<seq<HorarioDia>>,
                                      diasNoDisponibles: Option<seq<string>>, reloj: Reloj, ahora: int)
    returns (semanaGuardada: seq<HorarioDia>, diasGuardados: seq<string>)
    modifies db`configHorarios
    ensures semanaGuardada == horariosSemana.GetOr([])
    ensures diasGuardados == DiasNormalizados(diasNoDisponibles.GetOr([]), reloj)
    ensures db.configHorarios == Some(ConfigHorarios(Some(semanaGuardada), Some(diasGuardados), ahora))
  {
    semanaGuardada := horariosSemana.GetOr([]);
    diasGuardados := DiasNormalizados(diasNoDisponibles.GetOr([]), reloj);
    db.configHorarios := Some(ConfigHorarios(Some(semanaGuardada), Some(diasGuardados), ahora));
  }

  /** `config?.diasNoDisponibles || []`. */
  function ListaBloqueada(config: Option<ConfigHorarios>): seq<string> {
    if config.Some? then config.value.diasNoDisponibles.GetOr([]) else []
  }

  /** `GET /api/horarios/dia-bloqueado/:fecha` (verificarDiaBloqueado); read-only. */
  method VerificarDiaBloqueado(db: Db, fecha: string) returns (status: int, bloqueado: bool)
    ensures fecha == "" ==> status == 400 && !bloqueado
    ensures fecha != "" ==> status == 200
    ensures bloqueado <==> fecha != "" && db.configHorarios.Some?
                           && db.configHorarios.value.diasNoDisponibles.Some?
                           && fecha in db.configHorarios.value.diasNoDisponibles.value
  {
    if fecha == "" {
      return 400, false;
    }
    var lista := ListaBloqueada(db.configHorarios);
    bloqueado := fecha in lista;
    status := 200;
  }

  /** `GET /api/horarios/dias-no-disponibles` (obtenerDiasNoDisponibles): never creates the document. */
  method ObtenerDiasNoDisponibles(db: Db) returns (dias: seq<string>)
    ensures db.configHorarios.None? ==> dias == []
    ensures db.configHorarios.Some? ==> dias == db.configHorarios.value.diasNoDisponibles.GetOr([])
  {
    dias := ListaBloqueada(db.configHorarios);
  }

  /**
   * After a save, the check finds exactly the days that normalise to a stored value: a blocked
   * day is one the admin sent, in normalised form.
   */
  lemma BloqueadoTrasGuardar(semana: seq<HorarioDia>, dias: seq<string>, reloj: Reloj, ahora: int, fecha: string)
    ensures var config := Some(ConfigHorarios(Some(semana), Some(DiasNormalizados(dias, reloj)), ahora));
            (fecha in ListaBloqueada(config) ==>
               fecha != "" && exists d | d in dias :: d != "" && NormalizarFechaISO(d, reloj) == Some(fecha))
            && (forall d | d in dias && d != "" :: NormalizarFechaISO(d, reloj) == Some(fecha) && fecha != "" ==>
                  fecha in ListaBloqueada(config))
  {
  }
}
