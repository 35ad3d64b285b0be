/**
 * Sequence helpers standing for the JavaScript array operations the source uses:
 * `filter`, `findIndex`, `Array.from(new Set(...))`, `sort` with a numeric comparator, `slice(0, n)`.
 */
module Listas {
  import opened Wrappers

  /** `a` is obtained from `b` by deleting elements (order kept). */
  ghost predicate EsSubsecuencia<T>(a: seq<T>, b: seq<T>)
    decreases |b|
  {
    if a == [] then true
    else if b == [] then false
    else (a[0] == b[0] && EsSubsecuencia(a[1..], b[1..])) || EsSubsecuencia(a, b[1..])
  }

  lemma {:induction false} SubsecuenciaReflexiva<T>(a: seq<T>)
    ensures EsSubsecuencia(a, a)
    decreases |a|
  {
    if a != [] {
      SubsecuenciaReflexiva(a[1..]);
    }
  }

  lemma {:induction false} SubsecuenciaTransitiva<T>(a: seq<T>, b: seq<T>, c: seq<T>)
    requires EsSubsecuencia(a, b) && EsSubsecuencia(b, c)
    ensures EsSubsecuencia(a, c)
    decreases |c|
  {
    if a == [] {
    } else if c == [] {
    } else if b[0] == c[0] && EsSubsecuencia(b[1..], c[1..]) {
      if a[0] == b[0] && EsSubsecuencia(a[1..], b[1..]) {
        SubsecuenciaTransitiva(a[1..], b[1..], c[1..]);
      } else {
        SubsecuenciaTransitiva(a, b[1..], c[1..]);
      }
    } else {
      SubsecuenciaTransitiva(a, b, c[1..]);
    }
  }

  lemma {:induction false} SubsecuenciaMiembros<T>(a: seq<T>, b: seq<T>)
    requires EsSubsecuencia(a, b)
    ensures forall x | x in a :: x in b
    ensures |a| <= |b|
    decreases |b|
  {
    if a != [] {
      assert a == [a[0]] + a[1..];
      if a[0] == b[0] && EsSubsecuencia(a[1..], b[1..]) {
        SubsecuenciaMiembros(a[1..], b[1..]);
      } else {
        SubsecuenciaMiembros(a, b[1..]);
      }
    }
  }

  /** `s.filter(p)`. */
  function Filtrar<T(==)>(s: seq<T>, p: T -> bool): (r: seq<T>)
    ensures |r| <= |s|
    ensures forall i | 0 <= i < |r| :: p(r[i])
    ensures forall i | 0 <= i < |s| :: p(s[i]) ==> s[i] in r
    ensures forall x | x in r :: x in s
    ensures EsSubsecuencia(r, s)
    decreases |s|
  {
    if s == [] then []
    else if p(s[0]) then [s[0]] + Filtrar(s[1..], p)
    else Filtrar(s[1..], p)
  }

  /** An element is in the filtered list exactly when it is in the list and passes. */
  lemma FiltrarMiembros<T>(s: seq<T>, p: T -> bool)
    ensures forall x :: x in Filtrar(s, p) <==> x in s && p(x)
  {
    var r := Filtrar(s, p);
    forall x ensures x in r <==> x in s && p(x) {
      if x in r {
        var i :| 0 <= i < |r| && r[i] == x;
      }
      if x in s && p(x) {
        var i :| 0 <= i < |s| && s[i] == x;
      }
    }
  }

  lemma {:induction false} FiltrarTodos<T>(s: seq<T>, p: T -> bool)
    requires forall i | 0 <= i < |s| :: p(s[i])
    ensures Filtrar(s, p) == s
    decreases |s|
  {
    if s != [] {
      FiltrarTodos(s[1..], p);
    }
  }

  lemma {:induction false} FiltrarNinguno<T>(s: seq<T>, p: T -> bool)
    requires forall i | 0 <= i < |s| :: !p(s[i])
    ensures Filtrar(s, p) == []
    decreases |s|
  {
    if s != [] {
      FiltrarNinguno(s[1..], p);
    }
  }

  lemma {:induction false} FiltrarConcatenacion<T>(a: seq<T>, b: seq<T>, p: T -> bool)
    ensures Filtrar(a + b, p) == Filtrar(a, p) + Filtrar(b, p)
    decreases |a|
  {
    if a == [] {
      assert a + b == b;
    } else {
      assert (a + b)[1..] == a[1..] + b;
      FiltrarConcatenacion(a[1..], b, p);
    }
  }

  /** Number of elements satisfying `p`, counted the way a `forEach` with a counter does, last element last. */
  function Contar<T>(s: seq<T>, p: T -> bool): nat
    decreases |s|
  {
    if s == [] then 0 else Contar(s[..|s| - 1], p) + (if p(s[|s| - 1]) then 1 else 0)
  }

  /** The count is `s.filter(p).length`. */
  lemma {:induction false} ContarEsFiltrar<T>(s: seq<T>, p: T -> bool)
    ensures Contar(s, p) == |Filtrar(s, p)|
    decreases |s|
  {
    if s != [] {
      var n := |s| - 1;
      ContarEsFiltrar(s[..n], p);
      assert s == s[..n] + [s[n]];
      FiltrarConcatenacion(s[..n], [s[n]], p);
      assert [s[n]][1..] == [];
    }
  }

  /** Elements that pass `p` plus elements that fail it are all the elements. */
  lemma {:induction false} ContarComplemento<T>(s: seq<T>, p: T -> bool)
    ensures Contar(s, p) + Contar(s, x => !p(x)) == |s|
    decreases |s|
  {
    if s != [] {
      ContarComplemento(s[..|s| - 1], p);
    }
  }

  /** The same, for a predicate `q` given as the negation of `p`. */
  lemma {:induction false} ContarNegacion<T>(s: seq<T>, p: T -> bool, q: T -> bool)
    requires forall x :: q(x) == !p(x)
    ensures Contar(s, p) + Contar(s, q) == |s|
    decreases |s|
  {
    if s != [] {
      ContarNegacion(s[..|s| - 1], p, q);
    }
  }

  /** Filtering keeps exactly the multiset of the elements that pass. */
  lemma {:induction false} FiltrarParticion<T>(s: seq<T>, p: T -> bool)
    ensures multiset(Filtrar(s, p)) + multiset(Filtrar(s, x => !p(x))) == multiset(s)
    decreases |s|
  {
    if s != [] {
      FiltrarParticion(s[1..], p);
      assert s == [s[0]] + s[1..];
    }
  }

  /** Index of the first occurrence of `x` in `s`. */
  function PrimerIndice<T(==)>(s: seq<T>, x: T): (k: nat)
    requires x in s
    ensures k < |s| && s[k] == x
    ensures forall i | 0 <= i < k :: s[i] != x
  {
    if s[0] == x then 0 else 1 + PrimerIndice(s[1..], x)
  }

  /** Filtering keeps the relative order of first occurrences of the elements it keeps. */
  lemma {:induction false} FiltrarOrdenPrimeros<T>(s: seq<T>, p: T -> bool, x: T, y: T)
    requires x in s && y in s && p(x) && p(y)
    ensures x in Filtrar(s, p) && y in Filtrar(s, p)
    ensures PrimerIndice(Filtrar(s, p), x) < PrimerIndice(Filtrar(s, p), y)
            <==> PrimerIndice(s, x) < PrimerIndice(s, y)
    decreases |s|
  {
    assert x in Filtrar(s, p) by { assert s[PrimerIndice(s, x)] == x; }
    assert y in Filtrar(s, p) by { assert s[PrimerIndice(s, y)] == y; }
    if s[0] != x && s[0] != y {
      FiltrarOrdenPrimeros(s[1..], p, x, y);
    }
  }

  ghost predicate SinDuplicados<T>(s: seq<T>) {
    forall i, j | 0 <= i < j < |s| :: s[i] != s[j]
  }

  /**
   * `Array.from(new Set(s))`: the distinct elements of `s`, each at the position of its first
   * occurrence.
   */
  function Dedup<T(==)>(s: seq<T>): (r: seq<T>)
    ensures SinDuplicados(r)
    ensures forall x | x in r :: x in s
    ensures forall x | x in s :: x in r
    ensures EsSubsecuencia(r, s)
    ensures forall i, j | 0 <= i < j < |r| :: PrimerIndice(s, r[i]) < PrimerIndice(s, r[j])
    decreases |s|
  {
    if s == [] then []
    else
      var resto := SinCabeza(s);
      var r' := Dedup(resto);
      DedupPaso(s, resto, r');
      [s[0]] + r'
  }

  /** The tail without the copies of the head. */
  function SinCabeza<T(==)>(s: seq<T>): (r: seq<T>)
    requires s != []
    ensures |r| < |s|
  {
    Filtrar(s[1..], x => x != s[0])
  }

  /** The step of `Dedup`: the head, then the deduplicated rest without the head. */
  lemma {:induction false} DedupPaso<T>(s: seq<T>, resto: seq<T>, r': seq<T>)
    requires s != [] && resto == Filtrar(s[1..], x => x != s[0])
    requires SinDuplicados(r') && EsSubsecuencia(r', resto)
    requires forall x | x in r' :: x in resto
    requires forall x | x in resto :: x in r'
    requires forall i, j | 0 <= i < j < |r'| :: PrimerIndice(resto, r'[i]) < PrimerIndice(resto, r'[j])
    ensures SinDuplicados([s[0]] + r')
    ensures forall x | x in [s[0]] + r' :: x in s
    ensures forall x | x in s :: x in [s[0]] + r'
    ensures EsSubsecuencia([s[0]] + r', s)
    ensures forall i, j | 0 <= i < j < |[s[0]] + r'| ::
              PrimerIndice(s, ([s[0]] + r')[i]) < PrimerIndice(s, ([s[0]] + r')[j])
  {
    var r := [s[0]] + r';
    SubsecuenciaTransitiva(r', resto, s[1..]);
    assert r[1..] == r';
    forall x | x in s ensures x in r {
      if x != s[0] {
        assert x in s[1..];
      }
    }
    assert forall x | x in r :: x in s;
    assert forall x | x in r' :: x != s[0];
    OrdenFiltradoCola(s, x => x != s[0]);
    DedupPasoOrden(s, resto, r');
  }

  /** The order of first occurrences survives putting the head back in front of a filtered tail. */
  lemma DedupPasoOrden<T>(s: seq<T>, resto: seq<T>, r': seq<T>)
    requires s != [] && forall x | x in r' :: x in resto && x != s[0] && x in s
    requires forall a, b | a in resto && b in resto && a != s[0] && b != s[0] && a in s && b in s
               && PrimerIndice(resto, a) < PrimerIndice(resto, b) :: PrimerIndice(s, a) < PrimerIndice(s, b)
    requires forall i, j | 0 <= i < j < |r'| :: PrimerIndice(resto, r'[i]) < PrimerIndice(resto, r'[j])
    ensures forall i, j | 0 <= i < j < |[s[0]] + r'| ::
              PrimerIndice(s, ([s[0]] + r')[i]) < PrimerIndice(s, ([s[0]] + r')[j])
  {
    var r := [s[0]] + r';
    forall i, j | 0 <= i < j < |r|
      ensures PrimerIndice(s, r[i]) < PrimerIndice(s, r[j])
    {
      assert r[j] == r'[j - 1] && r'[j - 1] in r';
      if i > 0 {
        assert r[i] == r'[i - 1] && r'[i - 1] in r';
      } else {
        CabezaPrimero(s, r'[j - 1]);
      }
    }
  }

  /** Filtering the tail keeps, in `s`, the order of first occurrences of what it keeps other than the head. */
  lemma OrdenFiltradoCola<T>(s: seq<T>, p: T -> bool)
    requires s != []
    ensures forall a, b | a in Filtrar(s[1..], p) && b in Filtrar(s[1..], p) && a != s[0] && b != s[0] && a in s && b in s
              && PrimerIndice(Filtrar(s[1..], p), a) < PrimerIndice(Filtrar(s[1..], p), b) :: PrimerIndice(s, a) < PrimerIndice(s, b)
  {
    forall a, b | a in Filtrar(s[1..], p) && b in Filtrar(s[1..], p) && a != s[0] && b != s[0] && a in s && b in s
              && PrimerIndice(Filtrar(s[1..], p), a) < PrimerIndice(Filtrar(s[1..], p), b)
      ensures PrimerIndice(s, a) < PrimerIndice(s, b)
    {
      OrdenTrasCabeza(s, p, a, b);
    }
  }

  lemma CabezaPrimero<T>(s: seq<T>, b: T)
    requires s != [] && b in s && b != s[0]
    ensures PrimerIndice(s, s[0]) < PrimerIndice(s, b)
  {
  }

  /** Two elements other than the head keep, in `s`, the order of their first occurrences in a filter of the tail. */
  lemma OrdenTrasCabeza<T>(s: seq<T>, p: T -> bool, a: T, b: T)
    requires s != [] && a in Filtrar(s[1..], p) && b in Filtrar(s[1..], p) && a != s[0] && b != s[0] && a in s && b in s
    requires PrimerIndice(Filtrar(s[1..], p), a) < PrimerIndice(Filtrar(s[1..], p), b)
    ensures PrimerIndice(s, a) < PrimerIndice(s, b)
  {
    assert a in s[1..] && b in s[1..] && p(a) && p(b);
    FiltrarOrdenPrimeros(s[1..], p, a, b);
  }

  /** Removing duplicates a second time changes nothing. */
  lemma {:induction false} DedupIdempotente<T>(s: seq<T>)
    ensures Dedup(Dedup(s)) == Dedup(s)
  {
    DedupSinDuplicados(Dedup(s));
  }

  lemma {:induction false} DedupSinDuplicados<T>(s: seq<T>)
    requires SinDuplicados(s)
    ensures Dedup(s) == s
    decreases |s|
  {
    if s != [] {
      ColaSinDuplicados(s);
      DedupSinDuplicados(s[1..]);
      assert s == [s[0]] + s[1..];
    }
  }

  /** A list without duplicates has a tail without duplicates, none of them its head. */
  lemma ColaSinDuplicados<T>(s: seq<T>)
    requires s != [] && SinDuplicados(s)
    ensures SinDuplicados(s[1..]) && SinCabeza(s) == s[1..]
  {
    var t := s[1..];
    forall i, j | 0 <= i < j < |t| ensures t[i] != t[j] {
      assert t[i] == s[i + 1] && t[j] == s[j + 1];
    }
    forall i | 0 <= i < |t| ensures t[i] != s[0] {
      assert t[i] == s[i + 1];
    }
    FiltrarTodos(t, x => x != s[0]);
  }

  /** Ascending order of `clave`. */
  ghost predicate OrdenadaPor<T>(s: seq<T>, clave: T -> int) {
    forall i, j | 0 <= i < j < |s| :: clave(s[i]) <= clave(s[j])
  }

  function Insertar<T>(x: T, s: seq<T>, clave: T -> int): (r: seq<T>)
    requires OrdenadaPor(s, clave)
    ensures OrdenadaPor(r, clave)
    ensures multiset(r) == multiset(s) + multiset{x}
    ensures |r| == |s| + 1
    ensures forall k | 0 <= k < |r| :: r[k] == x || r[k] in s
    decreases |s|
  {
    if s == [] || clave(x) <= clave(s[0]) then [x] + s
    else
      var t := Insertar(x, s[1..], clave);
      InsertarTrasCabeza(x, s, t, clave);
      [s[0]] + t
  }

  /** The recursive step of `Insertar`: the head stays in front of the rest with `x` inserted. */
  lemma InsertarTrasCabeza<T>(x: T, s: seq<T>, t: seq<T>, clave: T -> int)
    requires s != [] && clave(s[0]) < clave(x) && OrdenadaPor(s, clave)
    requires OrdenadaPor(t, clave) && multiset(t) == multiset(s[1..]) + multiset{x} && |t| == |s[1..]| + 1
    requires forall k | 0 <= k < |t| :: t[k] == x || t[k] in s[1..]
    ensures OrdenadaPor([s[0]] + t, clave)
    ensures multiset([s[0]] + t) == multiset(s) + multiset{x}
    ensures forall k | 0 <= k < |[s[0]] + t| :: ([s[0]] + t)[k] == x || ([s[0]] + t)[k] in s
  {
    var r := [s[0]] + t;
    assert s == [s[0]] + s[1..];
    forall k | 0 <= k < |t| ensures clave(s[0]) <= clave(t[k]) {
      if t[k] != x {
        var j :| 0 <= j < |s[1..]| && s[1..][j] == t[k];
        assert s[j + 1] == t[k];
      }
    }
    forall i, j | 0 <= i < j < |r| ensures clave(r[i]) <= clave(r[j]) {
      assert r[j] == t[j - 1];
      if i > 0 {
        assert r[i] == t[i - 1];
      }
    }
    forall k | 0 <= k < |r| ensures r[k] == x || r[k] in s {
      if k > 0 {
        assert r[k] == t[k - 1];
      }
    }
  }

  /** `sort((a, b) => clave(a) - clave(b))`: a sorted permutation. */
  function Ordenar<T>(s: seq<T>, clave: T -> int): (r: seq<T>)
    ensures OrdenadaPor(r, clave)
    ensures multiset(r) == multiset(s)
    ensures |r| == |s|
    decreases |s|
  {
    if s == [] then []
    else
      assert s == [s[0]] + s[1..];
      Insertar(s[0], Ordenar(s[1..], clave), clave)
  }

  /** Position of the first element satisfying `p`, as `findIndex` (`None` for -1). */
  function PrimeroQue<T>(s: seq<T>, p: T -> bool): (r: Option<nat>)
    ensures r.Some? ==> r.value < |s| && p(s[r.value]) && forall i | 0 <= i < r.value :: !p(s[i])
    ensures r.None? ==> forall i | 0 <= i < |s| :: !p(s[i])
    decreases |s|
  {
    if s == [] then None
    else if p(s[0]) then Some(0)
    else match PrimeroQue(s[1..], p)
      case None => None
      case Some(i) => Some(i + 1)
  }

  /** The first element satisfying `p` is the one `PrimeroQue` names. */
  lemma PrimeroQueEs<T>(s: seq<T>, p: T -> bool, i: nat)
    requires i < |s| && p(s[i])
    requires forall j | 0 <= j < i :: !p(s[j])
    ensures PrimeroQue(s, p) == Some(i)
  {
    var r := PrimeroQue(s, p);
    assert r.Some?;
    assert !(r.value < i);
    assert !(i < r.value);
  }

  /** Position of the first element whose `campo` equals `v`: what `findOne({ campo: v })` returns. */
  function PrimeroCon<T, K(==)>(s: seq<T>, campo: T -> K, v: K): (r: Option<nat>)
    ensures r.Some? ==> r.value < |s| && campo(s[r.value]) == v && forall i | 0 <= i < r.value :: campo(s[i]) != v
    ensures r.None? ==> forall i | 0 <= i < |s| :: campo(s[i]) != v
    decreases |s|
  {
    if s == [] then None
    else if campo(s[0]) == v then Some(0)
    else match PrimeroCon(s[1..], campo, v)
      case None => None
      case Some(i) => Some(i + 1)
  }

  /** The first match is the one `PrimeroCon` names. */
  lemma PrimeroConEs<T, K>(s: seq<T>, campo: T -> K, v: K, i: nat)
    requires i < |s| && campo(s[i]) == v
    requires forall j | 0 <= j < i :: campo(s[j]) != v
    ensures PrimeroCon(s, campo, v) == Some(i)
  {
    var r := PrimeroCon(s, campo, v);
    assert r.Some?;
    assert !(r.value < i);
    assert !(i < r.value);
  }

  /** `slice(0, n)`. */
  function Tomar<T>(s: seq<T>, n: nat): (r: seq<T>)
    ensures |r| == if |s| < n then |s| else n
    ensures r == s[..|r|]
  {
    if |s| <= n then s else s[..n]
  }

  /** The first `n` of an ordered list are ordered and drawn from it. */
  lemma TomarOrdenada<T>(s: seq<T>, clave: T -> int, n: nat)
    requires OrdenadaPor(s, clave)
    ensures OrdenadaPor(Tomar(s, n), clave) && multiset(Tomar(s, n)) <= multiset(s)
  {
    var t := Tomar(s, n);
    assert s == t + s[|t|..];
    assert multiset(s) == multiset(t) + multiset(s[|t|..]);
  }

  /** Two lists with the same multiset of elements have the same members. */
  lemma MismosMiembros<T>(a: seq<T>, b: seq<T>)
    requires multiset(a) == multiset(b)
    ensures forall x :: x in a <==> x in b
  {
    forall x ensures x in a <==> x in b {
      assert x in a <==> x in multiset(a);
      assert x in b <==> x in multiset(b);
    }
  }

  /** Counting over a list extended by one element adds one exactly when that element passes. */
  lemma ContarAlFinal<T>(s: seq<T>, x: T, p: T -> bool)
    ensures Contar(s + [x], p) == Contar(s, p) + (if p(x) then 1 else 0)
  {
    assert (s + [x])[..|s|] == s;
  }

  /**
   * The first `n` of a sorted list are the smallest: anything of the list left out lies at or
   * above every element taken, and is only left out when `n` elements were taken.
   */
  lemma TomarLosMenores<T>(s: seq<T>, clave: T -> int, n: nat, x: T)
    requires OrdenadaPor(s, clave) && x in s && x !in Tomar(s, n)
    ensures |Tomar(s, n)| == n
    ensures forall y | y in Tomar(s, n) :: clave(y) <= clave(x)
  {
    var r := Tomar(s, n);
    var k :| 0 <= k < |s| && s[k] == x;
    assert k >= |r|;
    forall y | y in r ensures clave(y) <= clave(x) {
      var j :| 0 <= j < |r| && r[j] == y;
      assert s[j] == y;
    }
  }

  /** Filtering a list extended by one element keeps that element, at the end, exactly when it passes. */
  lemma FiltrarAlFinal<T>(s: seq<T>, x: T, p: T -> bool)
    ensures Filtrar(s + [x], p) == Filtrar(s, p) + (if p(x) then [x] else [])
  {
    FiltrarConcatenacion(s, [x], p);
    assert [x][1..] == [];
  }

  /** One more element of a prefix adds it to the prefix's multiset. */
  /** The prefix one longer is the prefix with the next element appended. */
  lemma PrefijoSiguiente<T>(s: seq<T>, i: nat)
    requires i < |s|
    ensures s[..i + 1] == s[..i] + [s[i]]
  {
    assert s[..i + 1] == s[..i] + [s[i]];
  }

  lemma MultisetPrefijoSiguiente<T>(s: seq<T>, i: nat)
    requires i < |s|
    ensures multiset(s[..i + 1]) == multiset(s[..i]) + multiset{s[i]}
  {
    assert s[..i + 1] == s[..i] + [s[i]];
  }

  /** Filtering one more element of a prefix appends it exactly when it passes. */
  lemma FiltrarPrefijoSiguiente<T>(s: seq<T>, i: nat, p: T -> bool)
    requires i < |s|
    ensures Filtrar(s[..i + 1], p) == Filtrar(s[..i], p) + (if p(s[i]) then [s[i]] else [])
  {
    assert s[..i + 1] == s[..i] + [s[i]];
    FiltrarAlFinal(s[..i], s[i], p);
  }

  /**
   * The first `n`, in ascending order of `clave`, of the elements passing `p`: at most `n` of
   * them, all passing `p`, sorted, and the smallest ones: an element passing `p` is only left out
   * when `n` were taken, none of them above it; no element is taken more often than it passes.
   */
  lemma LosMenoresQue<T>(s: seq<T>, p: T -> bool, clave: T -> int, n: nat)
    ensures var r := Tomar(Ordenar(Filtrar(s, p), clave), n);
            |r| <= n
            && (forall x | x in r :: x in s && p(x))
            && (forall i, j | 0 <= i < j < |r| :: clave(r[i]) <= clave(r[j]))
            && (forall x | x in s && p(x) && x !in r :: |r| == n && forall y | y in r :: clave(y) <= clave(x))
            && multiset(r) <= multiset(Filtrar(s, p))
  {
    var f := Filtrar(s, p);
    var o := Ordenar(f, clave);
    var r := Tomar(o, n);
    TomarOrdenada(o, clave, n);
    MismosMiembros(f, o);
    FiltrarMiembros(s, p);
    MenoresTomados(o, clave, n);
    ApartadosNoMenores(o, clave, n);
    forall x | x in r ensures x in s && p(x) {
      assert x in o;
      assert x in f;
    }
    forall x | x in s && p(x) && x !in r ensures |r| == n && forall y | y in r :: clave(y) <= clave(x) {
      assert x in f;
      assert x in o;
    }
  }

  /** What a prefix of a list holds is in the list, in the list's order. */
  lemma MenoresTomados<T>(o: seq<T>, clave: T -> int, n: nat)
    requires OrdenadaPor(o, clave)
    ensures var r := Tomar(o, n);
            |r| <= n && (forall x | x in r :: x in o) && (forall i, j | 0 <= i < j < |r| :: clave(r[i]) <= clave(r[j]))
  {
    var r := Tomar(o, n);
    forall x | x in r ensures x in o {
      var i :| 0 <= i < |r| && r[i] == x;
      assert o[i] == x;
    }
  }

  /** What a prefix of a sorted list leaves out lies above all it takes. */
  lemma ApartadosNoMenores<T>(o: seq<T>, clave: T -> int, n: nat)
    requires OrdenadaPor(o, clave)
    ensures var r := Tomar(o, n);
            forall x | x in o && x !in r :: |r| == n && forall y | y in r :: clave(y) <= clave(x)
  {
    var r := Tomar(o, n);
    forall x | x in o && x !in r ensures |r| == n && forall y | y in r :: clave(y) <= clave(x) {
      TomarLosMenores(o, clave, n, x);
    }
  }

  /**
   * The position of the first element passing `p` whose `clave` is the smallest among those
   * passing `p`, `None` when none passes: what a scan keeping the first strict minimum finds.
   */
  function PrimerMinimo<T>(s: seq<T>, p: T -> bool, clave: T -> int): (r: Option<nat>)
    ensures r.None? <==> forall i | 0 <= i < |s| :: !p(s[i])
    ensures r.Some? ==> r.value < |s| && p(s[r.value])
                        && (forall j | 0 <= j < |s| && p(s[j]) :: clave(s[r.value]) <= clave(s[j]))
                        && (forall j | 0 <= j < r.value && p(s[j]) :: clave(s[r.value]) < clave(s[j]))
    decreases |s|
  {
    if s == [] then None
    else
      var x := s[|s| - 1];
      var previo := PrimerMinimo(s[..|s| - 1], p, clave);
      assert forall j | 0 <= j < |s| - 1 :: s[..|s| - 1][j] == s[j];
      match previo
      case None => if p(x) then Some(|s| - 1) else None
      case Some(k) => if p(x) && clave(x) < clave(s[k]) then Some(|s| - 1) else Some(k)
  }

  /** One more element replaces the minimum found so far exactly when it passes and lies strictly below. */
  lemma PrimerMinimoAlFinal<T>(s: seq<T>, x: T, p: T -> bool, clave: T -> int)
    ensures PrimerMinimo(s + [x], p, clave) ==
              match PrimerMinimo(s, p, clave)
              case None => if p(x) then Some(|s|) else None
              case Some(k) => if p(x) && clave(x) < clave(s[k]) then Some(|s|) else Some(k)
  {
    var t := s + [x];
    assert t[..|t| - 1] == s && t[|t| - 1] == x;
  }
}
