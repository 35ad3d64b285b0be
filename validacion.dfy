/**
 * The form validators the pages share, each a regular expression of the source written out as a
 * check on characters, and each proved equal to an independent description of what it accepts:
 *  - `/^[0-9]{7,15}$/` (the phone pattern of `AgendarCitaPage.jsx` and `AdminAgregarClientePage.jsx`);
 *  - `/^[^\s@]+@[^\s@]+\.[^\s@]+$/` (the e-mail pattern of the same pages and `AdminClientesPage.jsx`);
 *  - `/^([01]\d|2[0-3]):[0-5]\d$/` on the trimmed text (`esHora24` of `AdminDashboardPage.jsx`, and
 *    `regexHora24` of `AgendarCitaPage.jsx` and `AdminCitasPage.jsx`).
 */
module Validacion {
  import opened Wrappers
  import opened Listas
  import opened Texto

  /** `/^[0-9]{7,15}$/.test(valor)`. */
  predicate EsTelefonoValido(valor: string) {
    7 <= |valor| <= 15 && forall i | 0 <= i < |valor| :: '0' <= valor[i] <= '9'
  }

  /**
   * What the phone inputs hold never has anything but digits, so for them the phone check is a
   * length check only.
   */
  lemma TelefonoFiltradoValido(entrada: string)
    ensures EsTelefonoValido(SoloDigitos(entrada)) <==> 7 <= |SoloDigitos(entrada)| <= 15
  {
  }

  /** A proper phone number survives the digit filter of the phone inputs unchanged. */
  lemma TelefonoValidoSeConserva(valor: string)
    requires EsTelefonoValido(valor)
    ensures SoloDigitos(valor) == valor && EsTelefonoValido(SoloDigitos(valor))
  {
    SoloDigitosIdempotente(valor);
  }

  /** `[^\s@]`. */
  predicate CaracterDeCorreo(c: char) {
    !EsEspacio(c) && c != '@'
  }

  predicate TrozoDeCorreo(s: string) {
    forall i | 0 <= i < |s| :: CaracterDeCorreo(s[i])
  }

  /**
   * The e-mail pattern as a check on positions: an `@` at some position `k > 0`, every other
   * character a `[^\s@]`, and a `.` strictly between position `k + 1` and the last character.
   */
  predicate EsCorreoValido(valor: string) {
    exists k | 0 < k < |valor| ::
      valor[k] == '@'
      && (forall i | 0 <= i < |valor| :: i == k || CaracterDeCorreo(valor[i]))
      && (exists j | k + 1 < j < |valor| - 1 :: valor[j] == '.')
  }

  /** What the pattern describes: the text is `a@b.c` with `a`, `b` and `c` non-empty runs of `[^\s@]`. */
  ghost predicate CoincideCorreo(valor: string) {
    exists a, b, c | a != [] && b != [] && c != [] && TrozoDeCorreo(a) && TrozoDeCorreo(b) && TrozoDeCorreo(c) ::
      valor == a + "@" + b + "." + c
  }

  lemma CorreoDePartes(a: string, b: string, c: string)
    requires a != [] && b != [] && c != [] && TrozoDeCorreo(a) && TrozoDeCorreo(b) && TrozoDeCorreo(c)
    ensures EsCorreoValido(a + "@" + b + "." + c)
  {
    var v := a + "@" + b + "." + c;
    var k, j := |a|, |a| + 1 + |b|;
    assert v[k] == '@' && v[j] == '.';
    forall i | 0 <= i < |v| && i != k ensures CaracterDeCorreo(v[i]) {
      if i < k {
        assert v[i] == a[i];
      } else if i < j {
        assert v[i] == b[i - k - 1];
      } else if i > j {
        assert v[i] == c[i - j - 1];
      }
    }
  }

  lemma PartesDeCorreo(valor: string)
    requires EsCorreoValido(valor)
    ensures CoincideCorreo(valor)
  {
    var k :| 0 < k < |valor| && valor[k] == '@'
      && (forall i | 0 <= i < |valor| :: i == k || CaracterDeCorreo(valor[i]))
      && (exists j | k + 1 < j < |valor| - 1 :: valor[j] == '.');
    var j :| k + 1 < j < |valor| - 1 && valor[j] == '.';
    var a, b, c := valor[..k], valor[k + 1..j], valor[j + 1..];
    TrozoDeRebanada(valor, k, 0, k);
    TrozoDeRebanada(valor, k, k + 1, j);
    TrozoDeRebanada(valor, k, j + 1, |valor|);
    CortarEnCinco(valor, k, j);
    assert a != [] && b != [] && c != [] && valor == a + "@" + b + "." + c;
  }

  /** A text with an `@` at `k` and a `.` at `j` is the three slices around them, joined by them. */
  lemma CortarEnCinco(valor: string, k: int, j: int)
    requires 0 <= k < j < |valor| && valor[k] == '@' && valor[j] == '.'
    ensures valor == valor[..k] + "@" + valor[k + 1..j] + "." + valor[j + 1..]
  {
    assert valor == valor[..k] + [valor[k]] + valor[k + 1..j] + [valor[j]] + valor[j + 1..];
  }

  /** A slice that leaves out the `@` at position `k` is a run of `[^\s@]`. */
  lemma TrozoDeRebanada(valor: string, k: int, lo: int, hi: int)
    requires 0 <= lo <= hi <= |valor| && (k < lo || hi <= k)
    requires forall i | 0 <= i < |valor| :: i == k || CaracterDeCorreo(valor[i])
    ensures TrozoDeCorreo(valor[lo..hi])
  {
    forall i | 0 <= i < hi - lo ensures CaracterDeCorreo(valor[lo..hi][i]) {
      assert valor[lo..hi][i] == valor[lo + i];
    }
  }

  /** The check accepts exactly the texts the pattern matches. */
  lemma CorreoValidoSiCoincide(valor: string)
    ensures EsCorreoValido(valor) <==> CoincideCorreo(valor)
  {
    if EsCorreoValido(valor) {
      PartesDeCorreo(valor);
    }
    if CoincideCorreo(valor) {
      var a, b, c :| a != [] && b != [] && c != [] && TrozoDeCorreo(a) && TrozoDeCorreo(b) && TrozoDeCorreo(c)
        && valor == a + "@" + b + "." + c;
      CorreoDePartes(a, b, c);
    }
  }

  /** A concrete address the pattern accepts. */
  lemma CorreoAceptado()
    ensures EsCorreoValido("ana@correo.com")
  {
    CorreoDePartes("ana", "correo", "com");
    assert "ana" + "@" + "correo" + "." + "com" == "ana@correo.com";
  }

  /** An address without a dot after the `@` is refused. */
  lemma CorreoSinPunto()
    ensures !EsCorreoValido("ana@correo")
  {
    var sinPunto := "ana@correo";
    forall k | 0 < k < |sinPunto| && sinPunto[k] == '@'
      ensures !exists j | k + 1 < j < |sinPunto| - 1 :: sinPunto[j] == '.'
    {
      assert k == 3;
    }
  }

  /** An address with a space in it is refused. */
  lemma CorreoConEspacio()
    ensures !EsCorreoValido("ana correo@x.com")
  {
    var conEspacio := "ana correo@x.com";
    assert EsEspacio(conEspacio[3]);
    forall k | 0 < k < |conEspacio| && conEspacio[k] == '@' ensures k != 3 && !CaracterDeCorreo(conEspacio[3]) {
    }
  }

  /** `"HH:MM"` with both numbers zero-padded to two digits. */
  function HoraTexto(h: nat, m: nat): (r: string)
    ensures h < 100 && m < 100 ==> |r| == 5 && r[2] == ':'
  {
    Pad2(h) + ":" + Pad2(m)
  }

  /** `/^([01]\d|2[0-3]):[0-5]\d$/.test(t)`. */
  predicate CoincideHora24(t: string) {
    |t| == 5 && t[2] == ':'
    && ((('0' <= t[0] <= '1') && EsDigito(t[1])) || (t[0] == '2' && '0' <= t[1] <= '3'))
    && '0' <= t[3] <= '5' && EsDigito(t[4])
  }

  /** `esHora24(hora)`: the pattern on `String(hora || "").trim()`. */
  predicate EsHora24(hora: string) {
    CoincideHora24(Trim(hora))
  }

  /** The two digits of an accepted hour and of its minutes, read as numbers, give the text back. */
  lemma HoraDeCifras(t: string)
    requires CoincideHora24(t)
    ensures var h, m := 10 * ValorCifra(t[0]) + ValorCifra(t[1]), 10 * ValorCifra(t[3]) + ValorCifra(t[4]);
            h < 24 && m < 60 && t == HoraTexto(h, m)
  {
    var a, b := t[..2], t[3..];
    assert a[0] == t[0] && a[1] == t[1] && b[0] == t[3] && b[1] == t[4];
    Pad2DeCifras(a);
    Pad2DeCifras(b);
    assert t == a + ":" + b;
  }

  lemma CifrasDeHora(h: nat, m: nat)
    requires h < 24 && m < 60
    ensures CoincideHora24(HoraTexto(h, m))
  {
    Pad2Cifras(h);
    Pad2Cifras(m);
    assert HoraTexto(h, m) == [Cifra(h / 10), Cifra(h % 10), ':', Cifra(m / 10), Cifra(m % 10)];
  }

  /** The pattern accepts exactly the padded times of day from 00:00 to 23:59. */
  lemma Hora24SiHoraDelDia(t: string)
    ensures CoincideHora24(t) <==> exists h: nat, m: nat | h < 24 && m < 60 :: t == HoraTexto(h, m)
  {
    if CoincideHora24(t) {
      HoraDeCifras(t);
    }
    if exists h: nat, m: nat | h < 24 && m < 60 :: t == HoraTexto(h, m) {
      var h: nat, m: nat :| h < 24 && m < 60 && t == HoraTexto(h, m);
      CifrasDeHora(h, m);
    }
  }

  /** Every time the pattern accepts is a padded time of day from 00:00 to 23:59, and only those. */
  lemma EsHora24SiHoraDelDia(hora: string)
    ensures EsHora24(hora) <==> exists h: nat, m: nat | h < 24 && m < 60 :: Trim(hora) == HoraTexto(h, m)
  {
    Hora24SiHoraDelDia(Trim(hora));
  }

  /** A padded time of day passes the hour check, surrounding white space or not. */
  lemma HoraDelDiaEsHora24(h: nat, m: nat)
    requires h < 24 && m < 60
    ensures CoincideHora24(HoraTexto(h, m)) && EsHora24(HoraTexto(h, m))
  {
    CifrasDeHora(h, m);
    TrimSinBordes(HoraTexto(h, m));
  }

  /** `"HH:MM".split(":")` gives the two padded numbers, and reading them gives the numbers back. */
  lemma LeerHoraTexto(h: nat, m: nat)
    ensures Partir(HoraTexto(h, m), ':') == [Pad2(h), Pad2(m)]
    ensures ParseInt(Pad2(h)) == Some(h as int) && ParseInt(Pad2(m)) == Some(m as int)
  {
    assert Unir([Pad2(h), Pad2(m)], ':') == HoraTexto(h, m);
    assert forall i | 0 <= i < |Pad2(h)| :: EsDigito(Pad2(h)[i]);
    assert forall i | 0 <= i < |Pad2(m)| :: EsDigito(Pad2(m)[i]);
    PartirUnir([Pad2(h), Pad2(m)], ':');
    ParseIntPad2(h, []);
    ParseIntPad2(m, []);
    assert Pad2(h) + [] == Pad2(h) && Pad2(m) + [] == Pad2(m);
  }
}
