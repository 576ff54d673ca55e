/**
 * The parts of SQLite's query semantics the DAO queries depend on: the LIKE operator,
 * WHERE as a filter, ORDER BY as a sort on a text key, and a full scan in rowid order.
 */
module Sql {
  import opened Texto

  // ---------------------------------------------------------------- LIKE

  /** SQLite folds only ASCII letters when comparing under LIKE. */
  function PlegarAscii(c: char): char {
    if 'A' <= c <= 'Z' then (c as int + 32) as char else c
  }

  /** `a` and `b` are equal up to ASCII case. */
  predicate IgualesSinMayusculas(a: string, b: string) {
    |a| == |b| && forall k :: 0 <= k < |a| ==> PlegarAscii(a[k]) == PlegarAscii(b[k])
  }

  /**
   * `s LIKE p` with SQLite's defaults: `%` matches any run of characters, `_` exactly one,
   * any other character matches itself up to ASCII case; there is no escape character.
   */
  predicate Like(p: string, s: string)
    decreases |p| + |s|
  {
    if p == [] then s == []
    else if p[0] == '%' then Like(p[1..], s) || (s != [] && Like(p, s[1..]))
    else s != [] && (p[0] == '_' || PlegarAscii(p[0]) == PlegarAscii(s[0])) && Like(p[1..], s[1..])
  }

  /** `q` contains neither of LIKE's wildcards. */
  predicate SinComodines(q: string) {
    forall k :: 0 <= k < |q| ==> q[k] != '%' && q[k] != '_'
  }

  /** `q` occurs in `s` as a contiguous substring, up to ASCII case. */
  ghost predicate ContieneSinMayusculas(s: string, q: string) {
    exists i :: 0 <= i && ApareceEn(s, q, i)
  }

  /** `q` occurs in `s` at position `i`, up to ASCII case. */
  predicate ApareceEn(s: string, q: string, i: nat) {
    i + |q| <= |s| && IgualesSinMayusculas(s[i..i + |q|], q)
  }

  lemma {:induction false} LikePorcentajeTodo(s: string)
    ensures Like("%", s)
    decreases |s|
  {
    assert "%"[1..] == "";
    if s != [] { LikePorcentajeTodo(s[1..]); }
  }

  /** For a wildcard-free `q`, `s LIKE q%` says that `s` starts with `q` up to case. */
  lemma {:induction false} LikePrefijo(q: string, s: string)
    requires SinComodines(q)
    ensures Like(q + "%", s) <==> |q| <= |s| && IgualesSinMayusculas(s[..|q|], q)
    decreases |q|
  {
    if q == [] {
      assert q + "%" == "%";
      LikePorcentajeTodo(s);
    } else {
      var p := q + "%";
      assert p[0] == q[0] && p[1..] == q[1..] + "%";
      if s != [] {
        LikePrefijo(q[1..], s[1..]);
        if |q| <= |s| {
          assert s[..|q|] == [s[0]] + s[1..][..|q| - 1];
        }
      }
    }
  }

  /** `s LIKE %p` says that some suffix of `s` matches `p`. */
  lemma {:induction false} LikeSufijo(p: string, s: string)
    ensures Like("%" + p, s) <==> exists i :: 0 <= i <= |s| && Like(p, s[i..])
    decreases |s|
  {
    var pp := "%" + p;
    assert pp[0] == '%' && pp[1..] == p;
    if s == [] {
      assert s[0..] == s;
    } else {
      LikeSufijo(p, s[1..]);
      if Like(pp, s) {
        if Like(p, s) {
          assert s[0..] == s;
        } else {
          var i :| 0 <= i <= |s[1..]| && Like(p, s[1..][i..]);
          assert s[1..][i..] == s[i + 1..];
        }
      } else {
        forall i | 0 <= i <= |s| ensures !Like(p, s[i..]) {
          if i == 0 { assert s[0..] == s; } else { assert s[1..][i - 1..] == s[i..]; }
        }
      }
    }
  }

  /** The search pattern `%q%`, for a wildcard-free `q`, is a case-insensitive substring test. */
  lemma LikeContiene(q: string, s: string)
    requires SinComodines(q)
    ensures Like("%" + q + "%", s) <==> ContieneSinMayusculas(s, q)
  {
    assert "%" + q + "%" == "%" + (q + "%");
    LikeSufijo(q + "%", s);
    if Like("%" + q + "%", s) {
      var i :| 0 <= i <= |s| && Like(q + "%", s[i..]);
      LikePrefijo(q, s[i..]);
      assert s[i..][..|q|] == s[i..i + |q|];
      assert ApareceEn(s, q, i);
    }
    if ContieneSinMayusculas(s, q) {
      var i :| 0 <= i && ApareceEn(s, q, i);
      LikePrefijo(q, s[i..]);
      assert s[i..][..|q|] == s[i..i + |q|];
    }
  }

  /** The empty search pattern `%%` matches every text. */
  lemma LikeDosPorcentajes(s: string)
    ensures Like("%%", s)
  {
    assert "%%" == "%" + "%";
    LikeSufijo("%", s);
    LikePorcentajeTodo(s);
    assert s[0..] == s;
  }

  // ---------------------------------------------------------------- WHERE

  /** Rows of `s` satisfying `f`, in scan order. */
  function Filtrar<T(!new)>(s: seq<T>, f: T -> bool): (r: seq<T>)
    ensures |r| <= |s|
    ensures forall x :: x in r <==> x in s && f(x)
    ensures multiset(r) <= multiset(s)
  {
    if s == [] then []
    else
      assert s == [s[0]] + s[1..];
      if f(s[0]) then [s[0]] + Filtrar(s[1..], f) else Filtrar(s[1..], f)
  }

  /** A condition every row satisfies filters nothing out. */
  lemma {:induction false} FiltrarTodos<T(!new)>(s: seq<T>, f: T -> bool)
    requires forall x :: x in s ==> f(x)
    ensures Filtrar(s, f) == s
    decreases |s|
  {
    if s != [] {
      assert s == [s[0]] + s[1..];
      FiltrarTodos(s[1..], f);
    }
  }

  /** A condition no row satisfies filters everything out. */
  lemma {:induction false} FiltrarNinguno<T(!new)>(s: seq<T>, f: T -> bool)
    requires forall x :: x in s ==> !f(x)
    ensures Filtrar(s, f) == []
    decreases |s|
  {
    if s != [] {
      assert s[0] in s;
      FiltrarNinguno(s[1..], f);
    }
  }

  // ---------------------------------------------------------------- ORDER BY

  /** Ascending on `clave` under BINARY collation. */
  ghost predicate OrdenadoPor<T>(s: seq<T>, clave: T -> string) {
    forall i, j :: 0 <= i < j < |s| ==> MenorIgual(clave(s[i]), clave(s[j]))
  }

  /** No row appears twice. */
  ghost predicate SinRepetidos<T>(s: seq<T>) {
    forall i, j :: 0 <= i < j < |s| ==> s[i] != s[j]
  }

  /** Filtering rows that are distinct keeps them distinct. */
  lemma {:induction false} FiltrarSinRepetidos<T(!new)>(s: seq<T>, f: T -> bool)
    requires SinRepetidos(s)
    ensures SinRepetidos(Filtrar(s, f))
    decreases |s|
  {
    if s != [] {
      CabezaNoRepetida(s);
      FiltrarSinRepetidos(s[1..], f);
      var t := Filtrar(s[1..], f);
      if f(s[0]) {
        assert s[0] !in t;
        var r := [s[0]] + t;
        forall i, j | 0 <= i < j < |r| ensures r[i] != r[j] {
          if i == 0 {
            assert r[j] == t[j - 1];
          } else {
            assert r[i] == t[i - 1] && r[j] == t[j - 1];
          }
        }
      }
    }
  }

  function Insertar<T>(x: T, s: seq<T>, clave: T -> string): (r: seq<T>)
    ensures multiset(r) == multiset(s) + multiset{x}
    ensures |r| == |s| + 1
  {
    if s == [] then [x]
    else if MenorIgual(clave(x), clave(s[0])) then [x] + s
    else
      assert s == [s[0]] + s[1..];
      [s[0]] + Insertar(x, s[1..], clave)
  }

  /** Insertion sort on `clave`; among equal keys the scan order is kept. */
  function OrdenarPor<T(!new)>(s: seq<T>, clave: T -> string): (r: seq<T>)
    ensures multiset(r) == multiset(s)
    ensures |r| == |s|
    ensures forall x :: x in r <==> x in s
  {
    if s == [] then []
    else
      assert s == [s[0]] + s[1..];
      var r := Insertar(s[0], OrdenarPor(s[1..], clave), clave);
      MismosElementos(r, s);
      r
  }

  /** Sequences with the same multiset hold the same elements. */
  lemma MismosElementos<T>(a: seq<T>, b: seq<T>)
    requires multiset(a) == multiset(b)
    ensures forall x :: x in a <==> x in b
  {
    forall x ensures x in a <==> x in b {
      assert x in a <==> x in multiset(a);
      assert x in b <==> x in multiset(b);
    }
  }

  /** Every element of a sorted sequence is at least its head. */
  lemma CabezaEsMinima<T>(y: T, s: seq<T>, clave: T -> string)
    requires s != [] && OrdenadoPor(s, clave) && y in s[1..]
    ensures MenorIgual(clave(s[0]), clave(y))
  {
    var k :| 0 <= k < |s[1..]| && s[1..][k] == y;
    assert s[k + 1] == y;
  }

  /** A sequence without repeats does not hold its head again in its tail. */
  lemma CabezaNoRepetida<T>(s: seq<T>)
    requires s != [] && SinRepetidos(s)
    ensures s[0] !in s[1..]
    ensures SinRepetidos(s[1..])
  {
    forall k | 0 <= k < |s[1..]| ensures s[1..][k] != s[0] {
      assert s[1..][k] == s[k + 1];
    }
  }

  lemma {:induction false} InsertarOrdenado<T>(x: T, s: seq<T>, clave: T -> string)
    requires OrdenadoPor(s, clave)
    ensures OrdenadoPor(Insertar(x, s, clave), clave)
    ensures SinRepetidos(s) && x !in s ==> SinRepetidos(Insertar(x, s, clave))
  {
    if s == [] {
    } else if MenorIgual(clave(x), clave(s[0])) {
      var r := [x] + s;
      forall j | 0 <= j < |s| ensures MenorIgual(clave(x), clave(s[j])) {
        if j > 0 { MenorIgualTransitivo(clave(x), clave(s[0]), clave(s[j])); }
      }
      forall i, j | 0 <= i < j < |r| ensures MenorIgual(clave(r[i]), clave(r[j])) {
        assert r[j] == s[j - 1];
        if i > 0 { assert r[i] == s[i - 1]; }
      }
      if SinRepetidos(s) && x !in s {
        forall i, j | 0 <= i < j < |r| ensures r[i] != r[j] {
          assert r[j] == s[j - 1];
          if i > 0 { assert r[i] == s[i - 1]; }
        }
      }
    } else {
      var t := Insertar(x, s[1..], clave);
      assert OrdenadoPor(s[1..], clave);
      InsertarOrdenado(x, s[1..], clave);
      MenorIgualTotal(clave(x), clave(s[0]));
      var rep := SinRepetidos(s) && x !in s;
      if rep { CabezaNoRepetida(s); }
      forall j | 0 <= j < |t| ensures MenorIgual(clave(s[0]), clave(t[j])) && (rep ==> s[0] != t[j]) {
        assert t[j] in multiset(t);
        if t[j] != x {
          assert t[j] in multiset(s[1..]);
          CabezaEsMinima(t[j], s, clave);
        }
      }
      var r := [s[0]] + t;
      forall i, j | 0 <= i < j < |r| ensures MenorIgual(clave(r[i]), clave(r[j])) && (rep ==> r[i] != r[j]) {
        assert r[j] == t[j - 1];
        if i > 0 { assert r[i] == t[i - 1]; }
      }
    }
  }

  /** ORDER BY yields a sorted permutation of its input and keeps rows distinct. */
  lemma {:induction false} OrdenarPorOrdena<T(!new)>(s: seq<T>, clave: T -> string)
    ensures OrdenadoPor(OrdenarPor(s, clave), clave)
    ensures SinRepetidos(s) ==> SinRepetidos(OrdenarPor(s, clave))
  {
    if s != [] {
      OrdenarPorOrdena(s[1..], clave);
      var t := OrdenarPor(s[1..], clave);
      if SinRepetidos(s) {
        CabezaNoRepetida(s);
        assert s[0] !in multiset(s[1..]);
        assert s[0] !in t;
      }
      InsertarOrdenado(s[0], t, clave);
    }
  }

  // ---------------------------------------------------------------- full scan

  /** `m` is the minimum of `s`. */
  predicate EsMinimo(m: int, s: set<int>) {
    m in s && forall k :: k in s ==> m <= k
  }

  lemma {:induction false} NoVacioTieneElemento(s: set<int>)
    requires s != {}
    ensures exists y :: y in s
  {
    if forall y :: y !in s { assert false; }
  }

  lemma {:induction false} MinimoExiste(s: set<int>)
    requires s != {}
    ensures exists m :: EsMinimo(m, s)
    decreases |s|
  {
    NoVacioTieneElemento(s);
    var x :| x in s;
    if s == {x} {
      assert EsMinimo(x, s);
    } else {
      var t := s - {x};
      MinimoExiste(t);
      var m :| EsMinimo(m, t);
      assert forall k :: k in s ==> k == x || k in t;
      if x < m { assert EsMinimo(x, s); } else { assert EsMinimo(m, s); }
    }
  }

  /** The keys of a table in ascending order (the rowid B-tree order). */
  function ClavesOrdenadas(s: set<int>): (r: seq<int>)
    ensures |r| == |s|
    ensures forall k :: k in r <==> k in s
    ensures forall i, j :: 0 <= i < j < |r| ==> r[i] < r[j]
    decreases |s|
  {
    if s == {} then []
    else
      MinimoExiste(s);
      var m :| EsMinimo(m, s);
      [m] + ClavesOrdenadas(s - {m})
  }

  /** `SELECT * FROM t` without ORDER BY: the rows in rowid order. */
  function Filas<T(==,!new)>(m: map<int, T>): (r: seq<T>)
    ensures |r| == |m|
    ensures forall x :: x in r <==> x in m.Values
  {
    var ks := ClavesOrdenadas(m.Keys);
    var r := seq(|ks|, i requires 0 <= i < |ks| => m[ks[i]]);
    assert forall x :: x in m.Values ==> x in r by {
      forall x | x in m.Values ensures x in r {
        var k :| k in m && m[k] == x;
        var i :| 0 <= i < |ks| && ks[i] == k;
        assert r[i] == x;
      }
    }
    r
  }

  /** A table whose rows are told apart by a key function scans to distinct rows. */
  lemma FilasSinRepetidos<T(!new)>(m: map<int, T>, id: T -> int)
    requires forall k :: k in m ==> id(m[k]) == k
    ensures SinRepetidos(Filas(m))
  {
    var ks := ClavesOrdenadas(m.Keys);
    var r := Filas(m);
    forall i, j | 0 <= i < j < |r| ensures r[i] != r[j] {
      assert r[i] == m[ks[i]] && r[j] == m[ks[j]];
      assert id(r[i]) == ks[i] && id(r[j]) == ks[j];
    }
  }
}
