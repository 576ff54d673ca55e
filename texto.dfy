/**
 * The Kotlin string operations the core relies on: `isBlank`, `trim`, the `\s` regex
 * replacement, `joinToString`, and the BINARY collation order SQLite uses for ORDER BY.
 */
module Texto {

  /** Kotlin `Char.isWhitespace()` on the JVM: `Character.isWhitespace || Character.isSpaceChar`. */
  predicate EsEspacio(c: char) {
    || c == ' ' || c == '\t' || c == '\n' || c == '\U{000B}' || c == '\U{000C}' || c == '\r'
    || ('\U{001C}' <= c <= '\U{001F}')
    || c == '\U{00A0}' || c == '\U{1680}' || ('\U{2000}' <= c <= '\U{200A}')
    || c == '\U{2028}' || c == '\U{2029}' || c == '\U{202F}' || c == '\U{205F}' || c == '\U{3000}'
  }

  /** The regex class `\s` of `java.util.regex.Pattern`: `[ \t\n\x0B\f\r]`. */
  predicate EsEspacioRegex(c: char) {
    c == ' ' || c == '\t' || c == '\n' || c == '\U{000B}' || c == '\U{000C}' || c == '\r'
  }

  lemma EspacioRegexEsEspacio(c: char)
    ensures EsEspacioRegex(c) ==> EsEspacio(c)
  {
  }

  /** Kotlin `CharSequence.isBlank()`: empty, or only whitespace. */
  predicate EsBlanco(s: string) {
    forall i :: 0 <= i < |s| ==> EsEspacio(s[i])
  }

  /** Drops the leading whitespace. */
  function SinEspaciosIniciales(s: string): (r: string)
    ensures |r| <= |s| && r == s[|s| - |r|..]
    ensures forall i :: 0 <= i < |s| - |r| ==> EsEspacio(s[i])
    ensures r != [] ==> !EsEspacio(r[0])
  {
    if s != [] && EsEspacio(s[0]) then SinEspaciosIniciales(s[1..]) else s
  }

  /** Drops the trailing whitespace. */
  function SinEspaciosFinales(s: string): (r: string)
    ensures |r| <= |s| && r == s[..|r|]
    ensures forall i :: |r| <= i < |s| ==> EsEspacio(s[i])
    ensures r != [] ==> !EsEspacio(r[|r| - 1])
  {
    if s != [] && EsEspacio(s[|s| - 1]) then SinEspaciosFinales(s[..|s| - 1]) else s
  }

  /** `r` is `s` with a whitespace-only prefix and suffix removed, and `r` neither starts nor ends with whitespace. */
  ghost predicate EsRecorte(s: string, r: string) {
    && (exists i, j :: 0 <= i <= j <= |s| && r == s[i..j]
          && (forall k :: 0 <= k < i ==> EsEspacio(s[k]))
          && (forall k :: j <= k < |s| ==> EsEspacio(s[k])))
    && (r != [] ==> !EsEspacio(r[0]) && !EsEspacio(r[|r| - 1]))
  }

  /** Kotlin `String.trim()`: strips `isWhitespace` characters from both ends. */
  function Recortar(s: string): (r: string)
    ensures EsRecorte(s, r)
  {
    var a := SinEspaciosIniciales(s);
    var r := SinEspaciosFinales(a);
    assert r == s[|s| - |a|..|s| - |a| + |r|];
    r
  }

  /** The trimmed text is empty exactly when the text is blank. */
  lemma RecortarVacioSiiBlanco(s: string)
    ensures Recortar(s) == [] <==> EsBlanco(s)
  {
    var r := Recortar(s);
    var i, j :| 0 <= i <= j <= |s| && r == s[i..j]
      && (forall k :: 0 <= k < i ==> EsEspacio(s[k]))
      && (forall k :: j <= k < |s| ==> EsEspacio(s[k]));
    if r == [] {
      forall k | 0 <= k < |s| ensures EsEspacio(s[k]) {
        if k >= i { assert k >= j; }
      }
    } else {
      assert !EsEspacio(s[i]);
    }
  }

  /** A non-empty trimmed text is never blank (its first character is not whitespace). */
  lemma RecortadoNoVacioNoEsBlanco(s: string)
    ensures Recortar(s) != [] ==> !EsBlanco(Recortar(s))
  {
  }

  /** Trimming twice is trimming once. */
  lemma RecortarIdempotente(s: string)
    ensures Recortar(Recortar(s)) == Recortar(s)
  {
    var r := Recortar(s);
    if r != [] {
      assert SinEspaciosIniciales(r) == r;
      assert SinEspaciosFinales(r) == r;
    }
  }

  /** `s.replace("\\s".toRegex(), "")`: removes every `\s` character, keeping the rest in order. */
  function QuitarEspaciosRegex(s: string): (r: string)
    ensures |r| <= |s|
    ensures forall i :: 0 <= i < |r| ==> !EsEspacioRegex(r[i])
    ensures forall c :: c in r <==> c in s && !EsEspacioRegex(c)
  {
    if s == [] then []
    else if EsEspacioRegex(s[0]) then QuitarEspaciosRegex(s[1..])
    else [s[0]] + QuitarEspaciosRegex(s[1..])
  }

  /** Text without `\s` characters is left unchanged, so removing them twice is removing them once. */
  lemma {:induction false} QuitarEspaciosRegexSinEspacios(s: string)
    requires forall i :: 0 <= i < |s| ==> !EsEspacioRegex(s[i])
    ensures QuitarEspaciosRegex(s) == s
  {
    if s != [] {
      QuitarEspaciosRegexSinEspacios(s[1..]);
    }
  }

  /** Cleaning two texts one after the other is cleaning their concatenation: order and repeats are kept. */
  lemma {:induction false} QuitarEspaciosRegexConcatenar(a: string, b: string)
    ensures QuitarEspaciosRegex(a + b) == QuitarEspaciosRegex(a) + QuitarEspaciosRegex(b)
    decreases |a|
  {
    if a != [] {
      assert (a + b)[0] == a[0] && (a + b)[1..] == a[1..] + b;
      QuitarEspaciosRegexConcatenar(a[1..], b);
    } else {
      assert a + b == b;
    }
  }

  /** A single character is dropped when it is `\s` and kept otherwise. */
  lemma QuitarEspaciosRegexUno(c: char)
    ensures QuitarEspaciosRegex([c]) == if EsEspacioRegex(c) then [] else [c]
  {
  }

  lemma QuitarEspaciosRegexIdempotente(s: string)
    ensures QuitarEspaciosRegex(QuitarEspaciosRegex(s)) == QuitarEspaciosRegex(s)
  {
    QuitarEspaciosRegexSinEspacios(QuitarEspaciosRegex(s));
  }

  /** Kotlin `joinToString(separator = sep)` over already transformed items. */
  function Unir(xs: seq<string>, sep: string): (r: string)
    ensures xs == [] ==> r == []
    ensures |xs| == 1 ==> r == xs[0]
    ensures |xs| >= 2 ==> |r| >= |sep|
  {
    if xs == [] then []
    else if |xs| == 1 then xs[0]
    else xs[0] + sep + Unir(xs[1..], sep)
  }

  /**
   * `joinToString` appends from left to right, with a separator before every item but the
   * first: one more item at the end adds the separator and that item.
   */
  lemma {:induction false} UnirAgregar(xs: seq<string>, y: string, sep: string)
    requires xs != []
    ensures Unir(xs + [y], sep) == Unir(xs, sep) + sep + y
    decreases |xs|
  {
    if |xs| == 1 {
      assert xs + [y] == [xs[0], y] && [xs[0], y][1..] == [y];
    } else {
      assert (xs + [y])[0] == xs[0] && (xs + [y])[1..] == xs[1..] + [y];
      UnirAgregar(xs[1..], y, sep);
    }
  }

  /** The joined text is empty iff there is nothing to join, or one empty item (with a non-empty separator). */
  lemma UnirVacio(xs: seq<string>, sep: string)
    requires sep != []
    ensures Unir(xs, sep) == [] <==> xs == [] || (|xs| == 1 && xs[0] == [])
  {
  }

  /**
   * SQLite's BINARY collation on UTF-8 text: memcmp of the encodings, a proper prefix first.
   * UTF-8 preserves code-point order, so this is the lexicographic order of the characters.
   */
  predicate MenorIgual(a: string, b: string)
    decreases |a|
  {
    if a == [] then true
    else if b == [] then false
    else if a[0] != b[0] then a[0] < b[0]
    else MenorIgual(a[1..], b[1..])
  }

  lemma {:induction false} MenorIgualReflexivo(a: string)
    ensures MenorIgual(a, a)
    decreases |a|
  {
    if a != [] { MenorIgualReflexivo(a[1..]); }
  }

  lemma {:induction false} MenorIgualTotal(a: string, b: string)
    ensures MenorIgual(a, b) || MenorIgual(b, a)
    decreases |a|
  {
    if a != [] && b != [] && a[0] == b[0] { MenorIgualTotal(a[1..], b[1..]); }
  }

  lemma {:induction false} MenorIgualTransitivo(a: string, b: string, c: string)
    requires MenorIgual(a, b) && MenorIgual(b, c)
    ensures MenorIgual(a, c)
    decreases |a|
  {
    if a != [] && b != [] && c != [] && a[0] == b[0] && b[0] == c[0] {
      MenorIgualTransitivo(a[1..], b[1..], c[1..]);
    }
  }

  lemma {:induction false} MenorIgualAntisimetrico(a: string, b: string)
    requires MenorIgual(a, b) && MenorIgual(b, a)
    ensures a == b
    decreases |a|
  {
    if a != [] && b != [] {
      MenorIgualAntisimetrico(a[1..], b[1..]);
      assert a == [a[0]] + a[1..] && b == [b[0]] + b[1..];
    }
  }
}
