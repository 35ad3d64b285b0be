/**
 * The order a database sort on string fields uses: code-point lexicographic order, with a
 * proper prefix before the longer string.
 */
module Orden {

  predicate MenorIgual(a: string, b: string)
    decreases |a|
  {
    if a == [] then true
    else if b == [] then false
    else if a[0] != b[0] then a[0] < b[0]
    else MenorIgual(a[1..], b[1..])
  }

  lemma {:induction false} MenorIgualReflexivo(a: string)
    ensures MenorIgual(a, a)
    decreases |a|
  {
    if a != [] {
      MenorIgualReflexivo(a[1..]);
    }
  }

  lemma {:induction false} MenorIgualTotal(a: string, b: string)
    ensures MenorIgual(a, b) || MenorIgual(b, a)
    decreases |a|
  {
    if a != [] && b != [] && a[0] == b[0] {
      MenorIgualTotal(a[1..], b[1..]);
    }
  }

  lemma {:induction false} MenorIgualTransitivo(a: string, b: string, c: string)
    requires MenorIgual(a, b) && MenorIgual(b, c)
    ensures MenorIgual(a, c)
    decreases |a|
  {
    if a != [] && b != [] && c != [] && a[0] == b[0] && b[0] == c[0] {
      MenorIgualTransitivo(a[1..], b[1..], c[1..]);
    }
  }

  lemma {:induction false} MenorIgualAntisimetrico(a: string, b: string)
    requires MenorIgual(a, b) && MenorIgual(b, a)
    ensures a == b
    decreases |a|
  {
    if a != [] && b != [] {
      MenorIgualAntisimetrico(a[1..], b[1..]);
      assert a == [a[0]] + a[1..];
      assert b == [b[0]] + b[1..];
    }
  }

  /** `sort({ fecha: 1, hora: 1 })`: by fecha, then by hora. */
  predicate AntesOIgual(fecha1: string, hora1: string, fecha2: string, hora2: string) {
    if fecha1 == fecha2 then MenorIgual(hora1, hora2) else MenorIgual(fecha1, fecha2)
  }

  lemma AntesOIgualTotal(f1: string, h1: string, f2: string, h2: string)
    ensures AntesOIgual(f1, h1, f2, h2) || AntesOIgual(f2, h2, f1, h1)
  {
    MenorIgualTotal(f1, f2);
    MenorIgualTotal(h1, h2);
  }

  lemma AntesOIgualTransitivo(f1: string, h1: string, f2: string, h2: string, f3: string, h3: string)
    requires AntesOIgual(f1, h1, f2, h2) && AntesOIgual(f2, h2, f3, h3)
    ensures AntesOIgual(f1, h1, f3, h3)
  {
    if f1 == f2 && f2 == f3 {
      MenorIgualTransitivo(h1, h2, h3);
    } else if f1 == f2 {
      assert MenorIgual(f1, f3);
    } else if f2 == f3 {
      assert MenorIgual(f1, f3);
    } else {
      MenorIgualTransitivo(f1, f2, f3);
      if f1 == f3 {
        MenorIgualAntisimetrico(f1, f2);
      }
    }
  }
}
