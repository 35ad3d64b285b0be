/**
 * String operations with the meaning ECMAScript gives them: `trim`, `toLowerCase`,
 * `toUpperCase`, `split` on one character, `parseInt(s, 10)`, `String(n).padStart(2, "0")`,
 * `includes` and `replace(/\D/g, "")`.
 */
module Texto {
  import opened Wrappers
  import opened Listas

  /** The characters `\s` matches and `trim` removes: WhiteSpace and LineTerminator. */
  predicate EsEspacio(c: char) {
    c == ' ' || c == '\t' || c == '\n' || c == '\r' || c == '\U{000B}' || c == '\U{000C}'
    || c == '\U{00A0}' || c == '\U{1680}' || ('\U{2000}' <= c <= '\U{200A}')
    || c == '\U{2028}' || c == '\U{2029}' || c == '\U{202F}' || c == '\U{205F}'
    || c == '\U{3000}' || c == '\U{FEFF}'
  }

  /** `\d`. */
  predicate EsDigito(c: char) {
    '0' <= c <= '9'
  }

  predicate SoloCifras(s: string) {
    forall i | 0 <= i < |s| :: EsDigito(s[i])
  }

  function TrimStart(s: string): (r: string)
    ensures |r| <= |s| && r == s[|s| - |r|..]
    ensures forall i | 0 <= i < |s| - |r| :: EsEspacio(s[i])
    ensures r == [] || !EsEspacio(r[0])
    decreases |s|
  {
    if s != [] && EsEspacio(s[0]) then TrimStart(s[1..]) else s
  }

  function TrimEnd(s: string): (r: string)
    ensures |r| <= |s| && r == s[..|r|]
    ensures forall i | |r| <= i < |s| :: EsEspacio(s[i])
    ensures r == [] || !EsEspacio(r[|r| - 1])
    decreases |s|
  {
    if s != [] && EsEspacio(s[|s| - 1]) then TrimEnd(s[..|s| - 1]) else s
  }

  /** `s.trim()`: `s` without its leading and trailing white space, and nothing else removed. */
  function Trim(s: string): (r: string)
    ensures |r| <= |s|
    ensures exists i | 0 <= i <= |s| - |r| ::
              s[i..][..|r|] == r
              && (forall k | 0 <= k < i :: EsEspacio(s[k]))
              && (forall k | i + |r| <= k < |s| :: EsEspacio(s[k]))
    ensures r == [] || (!EsEspacio(r[0]) && !EsEspacio(r[|r| - 1]))
  {
    var t := TrimStart(s);
    var r := TrimEnd(t);
    var i := |s| - |t|;
    assert s[i..][..|r|] == r;
    r
  }

  /** `s.trim() === ""`. */
  predicate EsBlanco(s: string) {
    Trim(s) == []
  }

  lemma {:induction false} TrimStartEspacios(s: string)
    requires forall k | 0 <= k < |s| :: EsEspacio(s[k])
    ensures TrimStart(s) == []
    decreases |s|
  {
    if s != [] {
      TrimStartEspacios(s[1..]);
    }
  }

  /** A blank string is exactly one made of white space only. */
  lemma BlancoSiSoloEspacios(s: string)
    ensures EsBlanco(s) <==> forall k | 0 <= k < |s| :: EsEspacio(s[k])
  {
    if forall k | 0 <= k < |s| :: EsEspacio(s[k]) {
      TrimStartEspacios(s);
    }
  }

  /** Trimming twice is trimming once. */
  lemma TrimIdempotente(s: string)
    ensures Trim(Trim(s)) == Trim(s)
  {
    var r := Trim(s);
    if r != [] {
      assert TrimStart(r) == r;
      assert TrimEnd(r) == r;
    }
  }

  /** `toLowerCase` on one character: ASCII and Latin-1 capitals. */
  function MinusculaChar(c: char): char {
    if 'A' <= c <= 'Z' || ('\U{00C0}' <= c <= '\U{00DE}' && c != '\U{00D7}') then (c as int + 32) as char
    else c
  }

  /** `toUpperCase` on one character: ASCII and Latin-1 small letters that have a one-letter capital there. */
  function MayusculaChar(c: char): char {
    if 'a' <= c <= 'z' || ('\U{00E0}' <= c <= '\U{00FE}' && c != '\U{00F7}') then (c as int - 32) as char
    else c
  }

  function Minusculas(s: string): (r: string)
    ensures |r| == |s|
    ensures forall i | 0 <= i < |s| :: r[i] == MinusculaChar(s[i])
  {
    seq(|s|, i requires 0 <= i < |s| => MinusculaChar(s[i]))
  }

  function Mayusculas(s: string): (r: string)
    ensures |r| == |s|
    ensures forall i | 0 <= i < |s| :: r[i] == MayusculaChar(s[i])
  {
    seq(|s|, i requires 0 <= i < |s| => MayusculaChar(s[i]))
  }

  /** Lower-casing is idempotent, so comparing lower-cased texts ignores case once and for all. */
  lemma MinusculasIdempotente(s: string)
    ensures Minusculas(Minusculas(s)) == Minusculas(s)
  {
  }

  /** Upper-casing then lower-casing gives the lower-cased text back. */
  lemma MinusculasDeMayusculas(s: string)
    ensures Minusculas(Mayusculas(s)) == Minusculas(s)
  {
  }

  /** Case mapping leaves white space alone. */
  lemma EspacioSinMayuscula(c: char)
    ensures EsEspacio(MayusculaChar(c)) <==> EsEspacio(c)
  {
  }

  lemma EspacioSinMinuscula(c: char)
    ensures EsEspacio(MinusculaChar(c)) <==> EsEspacio(c)
  {
  }

  lemma MinusculaCharIdempotente(c: char)
    ensures MinusculaChar(MinusculaChar(c)) == MinusculaChar(c)
  {
  }

  /** Lower-casing a text without white space at its ends keeps it so, and gives a text lower-casing leaves alone. */
  lemma MinusculasSinBordes(t: string)
    requires t == [] || (!EsEspacio(t[0]) && !EsEspacio(t[|t| - 1]))
    ensures var r := Minusculas(t);
            (r == [] || (!EsEspacio(r[0]) && !EsEspacio(r[|r| - 1])))
            && forall i | 0 <= i < |r| :: MinusculaChar(r[i]) == r[i]
  {
    var r := Minusculas(t);
    if t != [] {
      EspacioSinMinuscula(t[0]);
      EspacioSinMinuscula(t[|t| - 1]);
    }
    forall i | 0 <= i < |r| ensures MinusculaChar(r[i]) == r[i] {
      MinusculaCharIdempotente(t[i]);
    }
  }

  /** Upper-casing a text keeps it blank or non-blank. */
  lemma BlancoSinMayusculas(s: string)
    ensures EsBlanco(Mayusculas(s)) == EsBlanco(s)
  {
    var m := Mayusculas(s);
    forall k | 0 <= k < |s| ensures EsEspacio(m[k]) <==> EsEspacio(s[k]) {
      EspacioSinMayuscula(s[k]);
    }
    BlancoSiSoloEspacios(s);
    BlancoSiSoloEspacios(m);
  }

  /** Index of the first `sep` in `s`. */
  function IndiceDe(s: string, sep: char): (k: nat)
    requires sep in s
    ensures k < |s| && s[k] == sep && sep !in s[..k]
  {
    if s[0] == sep then 0 else 1 + IndiceDe(s[1..], sep)
  }

  /** `parts.join(sep)`. */
  function Unir(parts: seq<string>, sep: char): string
    requires |parts| >= 1
    decreases |parts|
  {
    if |parts| == 1 then parts[0] else parts[0] + [sep] + Unir(parts[1..], sep)
  }

  /** `s.split(sep)`: the pieces between separators; `""` splits into `[""]`. */
  function Partir(s: string, sep: char): (r: seq<string>)
    ensures |r| >= 1
    ensures forall i | 0 <= i < |r| :: sep !in r[i]
    ensures Unir(r, sep) == s
    decreases |s|
  {
    if sep !in s then [s]
    else
      var k := IndiceDe(s, sep);
      var resto := Partir(s[k + 1..], sep);
      assert s == s[..k] + [sep] + s[k + 1..];
      [s[..k]] + resto
  }

  lemma {:induction false} IndiceDeConcatenacion(a: string, sep: char, b: string)
    requires sep !in a
    ensures sep in a + [sep] + b
    ensures IndiceDe(a + [sep] + b, sep) == |a|
    decreases |a|
  {
    var s := a + [sep] + b;
    assert s[|a|] == sep;
    if a != [] {
      assert s[1..] == a[1..] + [sep] + b;
      IndiceDeConcatenacion(a[1..], sep, b);
    }
  }

  /** Splitting a joined list of separator-free pieces gives the pieces back. */
  lemma {:induction false} PartirUnir(parts: seq<string>, sep: char)
    requires |parts| >= 1
    requires forall i | 0 <= i < |parts| :: sep !in parts[i]
    ensures Partir(Unir(parts, sep), sep) == parts
    decreases |parts|
  {
    var s := Unir(parts, sep);
    if |parts| > 1 {
      var cola := Unir(parts[1..], sep);
      assert s == parts[0] + [sep] + cola;
      IndiceDeConcatenacion(parts[0], sep, cola);
      var k := IndiceDe(s, sep);
      assert s[..k] == parts[0];
      assert s[k + 1..] == cola;
      PartirUnir(parts[1..], sep);
    }
  }

  /** Longest prefix of decimal digits. */
  function PrefijoCifras(s: string): (r: string)
    ensures |r| <= |s| && r == s[..|r|]
    ensures SoloCifras(r)
    ensures |r| < |s| ==> !EsDigito(s[|r|])
    decreases |s|
  {
    if s != [] && EsDigito(s[0]) then [s[0]] + PrefijoCifras(s[1..]) else []
  }

  function ValorCifra(c: char): (v: nat)
    requires EsDigito(c)
    ensures v < 10
  {
    c as int - '0' as int
  }

  function Cifra(v: nat): (c: char)
    requires v < 10
    ensures EsDigito(c) && ValorCifra(c) == v
  {
    ('0' as int + v) as char
  }

  /** The number a string of decimal digits denotes. */
  function ValorDecimal(d: string): nat
    requires SoloCifras(d)
    decreases |d|
  {
    if d == [] then 0 else 10 * ValorDecimal(d[..|d| - 1]) + ValorCifra(d[|d| - 1])
  }

  lemma {:induction false} ValorDecimalCeroInicial(d: string)
    requires SoloCifras(d)
    ensures SoloCifras("0" + d) && ValorDecimal("0" + d) == ValorDecimal(d)
    decreases |d|
  {
    if d != [] {
      assert ("0" + d)[..|d|] == "0" + d[..|d| - 1];
      ValorDecimalCeroInicial(d[..|d| - 1]);
    }
  }

  /** `String(n)` for a natural number: decimal digits without leading zeros. */
  function NatATexto(n: nat): (r: string)
    ensures |r| >= 1 && SoloCifras(r)
    ensures ValorDecimal(r) == n
    ensures |r| > 1 ==> r[0] != '0'
    ensures n < 10 <==> |r| == 1
    ensures n < 100 ==> |r| <= 2
    decreases n
  {
    if n < 10 then [Cifra(n)]
    else
      var r := NatATexto(n / 10) + [Cifra(n % 10)];
      assert r[..|r| - 1] == NatATexto(n / 10);
      r
  }

  /** `String(n).padStart(2, "0")`. */
  function Pad2(n: nat): (r: string)
    ensures |r| >= 2 && SoloCifras(r)
    ensures ValorDecimal(r) == n
    ensures n < 100 ==> |r| == 2
  {
    if n < 10 then
      ValorDecimalCeroInicial(NatATexto(n));
      "0" + NatATexto(n)
    else NatATexto(n)
  }

  /** `parseInt(s, 10)`; `None` stands for NaN. Leading white space is skipped. */
  function ParseInt(s: string): Option<int> {
    LeerEntero(TrimStart(s))
  }

  /** An optional sign and the longest run of digits after it; NaN when there is none. */
  function LeerEntero(t: string): Option<int> {
    if t != [] && t[0] == '-' then
      match LeerNatural(t[1..])
      case Some(v) => Some(-(v as int))
      case None => None
    else if t != [] && t[0] == '+' then LeerNatural(t[1..])
    else LeerNatural(t)
  }

  /** The longest run of digits at the start of `u`, as a number; NaN when there is none. */
  function LeerNatural(u: string): Option<int> {
    var d := PrefijoCifras(u);
    if d == [] then None else Some(ValorDecimal(d))
  }

  lemma ValorDecimalPrefijo(d: string, resto: string)
    requires SoloCifras(d)
    requires resto == [] || !EsDigito(resto[0])
    ensures PrefijoCifras(d + resto) == d
  {
    if d != [] {
      assert (d + resto)[1..] == d[1..] + resto;
      ValorDecimalPrefijo(d[1..], resto);
    }
  }

  lemma LeerNaturalCifras(d: string, resto: string)
    requires SoloCifras(d) && d != []
    requires resto == [] || !EsDigito(resto[0])
    ensures LeerNatural(d + resto) == Some(ValorDecimal(d) as int)
  {
    ValorDecimalPrefijo(d, resto);
  }

  lemma LeerEnteroCifras(d: string, resto: string)
    requires SoloCifras(d) && d != []
    requires resto == [] || !EsDigito(resto[0])
    ensures LeerEntero(d + resto) == Some(ValorDecimal(d) as int)
  {
    LeerNaturalCifras(d, resto);
    assert (d + resto)[0] == d[0];
  }

  lemma LeerEnteroNegativo(u: string)
    ensures LeerEntero("-" + u) == match LeerNatural(u) case Some(v) => Some(-v) case None => None
  {
    assert ("-" + u)[1..] == u;
  }

  lemma TrimStartSinEspacioInicial(s: string)
    requires s != [] && !EsEspacio(s[0])
    ensures TrimStart(s) == s
  {
  }

  /** `parseInt` after a minus sign: the negated number, or NaN. */
  lemma ParseIntMenos(u: string)
    ensures ParseInt("-" + u) == match LeerNatural(u) case Some(v) => Some(-v) case None => None
  {
    assert ("-" + u)[0] == '-';
    TrimStartSinEspacioInicial("-" + u);
    LeerEnteroNegativo(u);
  }

  /** `parseInt` reads a run of digits and stops at the first non-digit. */
  lemma ParseIntCifras(d: string, resto: string)
    requires SoloCifras(d) && d != []
    requires resto == [] || !EsDigito(resto[0])
    ensures ParseInt(d + resto) == Some(ValorDecimal(d) as int)
  {
    LeerEnteroCifras(d, resto);
    assert (d + resto)[0] == d[0];
    TrimStartSinEspacioInicial(d + resto);
  }

  /** `parseInt` reads back the digits `String(n)` wrote, whatever non-digit text follows. */
  lemma ParseIntNatATexto(n: nat, resto: string)
    requires resto == [] || !EsDigito(resto[0])
    ensures ParseInt(NatATexto(n) + resto) == Some(n as int)
  {
    ParseIntCifras(NatATexto(n), resto);
  }

  /** The same for the zero-padded form `String(n).padStart(2, "0")`. */
  lemma ParseIntPad2(n: nat, resto: string)
    requires resto == [] || !EsDigito(resto[0])
    ensures ParseInt(Pad2(n) + resto) == Some(n as int)
  {
    ParseIntCifras(Pad2(n), resto);
  }

  /** A string without any digit is NaN for `parseInt`. */
  lemma ParseIntSinCifras(s: string)
    requires forall i | 0 <= i < |s| :: !EsDigito(s[i])
    ensures ParseInt(s) == None
  {
    var t := TrimStart(s);
    if t != [] && (t[0] == '-' || t[0] == '+') && |t| > 1 {
      assert t[1..][0] == s[|s| - |t| + 1];
    } else if t != [] {
      assert t[0] == s[|s| - |t|];
    }
  }

  function EsPrefijo(q: string, s: string): bool {
    |q| <= |s| && s[..|q|] == q
  }

  /** `s.includes(q)`. */
  function Incluye(s: string, q: string): (r: bool)
    ensures r ==> |q| <= |s|
    decreases |s|
  {
    EsPrefijo(q, s) || (s != [] && Incluye(s[1..], q))
  }

  /** Every string includes the empty one and every piece of itself. */
  lemma {:induction false} IncluyeInfijo(a: string, q: string, b: string)
    ensures Incluye(a + q + b, q)
    decreases |a|
  {
    if a == [] {
      assert (a + q + b)[..|q|] == q;
    } else {
      assert (a + q + b)[1..] == a[1..] + q + b;
      IncluyeInfijo(a[1..], q, b);
    }
  }

  /** `s.replace(/\D/g, "")`. */
  function SoloDigitos(s: string): (r: string)
    ensures SoloCifras(r)
    ensures EsSubsecuencia(r, s)
    ensures forall i | 0 <= i < |s| :: EsDigito(s[i]) ==> s[i] in r
  {
    Filtrar(s, EsDigito)
  }

  /** Stripping non-digits leaves an all-digit text unchanged, so it is idempotent. */
  lemma SoloDigitosIdempotente(s: string)
    ensures SoloCifras(s) ==> SoloDigitos(s) == s
    ensures SoloDigitos(SoloDigitos(s)) == SoloDigitos(s)
  {
    if SoloCifras(s) {
      FiltrarTodos(s, EsDigito);
    }
    FiltrarTodos(SoloDigitos(s), EsDigito);
  }
  /** A text with no white space at either end is its own trim. */
  lemma TrimSinBordes(s: string)
    requires s != [] && !EsEspacio(s[0]) && !EsEspacio(s[|s| - 1])
    ensures Trim(s) == s
  {
    assert TrimStart(s) == s;
  }

  /** The two characters of `String(n).padStart(2, "0")` for `n < 100` are its tens and its units. */
  lemma Pad2Cifras(n: nat)
    requires n < 100
    ensures Pad2(n) == [Cifra(n / 10), Cifra(n % 10)]
  {
    if n >= 10 {
      assert NatATexto(n / 10) == [Cifra(n / 10)];
    }
  }

  /** Every two-digit text is the padded form of the number it denotes. */
  lemma Pad2DeCifras(d: string)
    requires |d| == 2 && SoloCifras(d)
    ensures ValorDecimal(d) == 10 * ValorCifra(d[0]) + ValorCifra(d[1])
    ensures ValorDecimal(d) < 100 && Pad2(ValorDecimal(d)) == d
  {
    var n := ValorDecimal(d);
    assert d[..1] == [d[0]];
    assert ValorDecimal(d[..1]) == ValorCifra(d[0]);
    assert n == 10 * ValorCifra(d[0]) + ValorCifra(d[1]);
    Pad2Cifras(n);
    DosCifras(ValorCifra(d[0]), ValorCifra(d[1]));
  }

  lemma DosCifras(a: nat, b: nat)
    requires a < 10 && b < 10
    ensures (10 * a + b) / 10 == a && (10 * a + b) % 10 == b
  {
  }
}
