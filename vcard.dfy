/**
 * `VCardUtils.exportToVCard`: one block of LF-terminated lines per contact, appended to a
 * string builder in list order. The lines are the vCard 3.0 header lines the code writes
 * literally (`FN`, `TEL;TYPE=CELL`, `EMAIL`) plus the non-standard `Linkedin:` and
 * `website:` lines; field values are copied without escaping.
 *
 * The exporter is proved against `VCard`, the concatenation of the blocks. The partner of
 * the exporter is a line reader: when no field holds a line feed, reading the output back
 * gives exactly the lines of every block, and the `FN:` lines give back the names in order.
 */
module VCard {
  import opened Resultados
  import opened Modelo
  import opened Texto


  // ---------------------------------------------------------------- joining strings

  /** The strings in order, with nothing in between. */
  function Juntar(ps: seq<string>): (r: string)
    ensures ps == [] ==> r == ""
    decreases |ps|
  {
    if ps == [] then "" else Juntar(ps[..|ps| - 1]) + ps[|ps| - 1]
  }

  lemma {:induction false} JuntarConcatenar(a: seq<string>, b: seq<string>)
    ensures Juntar(a + b) == Juntar(a) + Juntar(b)
    decreases |b|
  {
    if b == [] {
      assert a + b == a;
    } else {
      assert (a + b)[..|a + b| - 1] == a + b[..|b| - 1];
      JuntarConcatenar(a, b[..|b| - 1]);
    }
  }

  lemma JuntarUno(p: string)
    ensures Juntar([p]) == p
  {
    assert [p][..0] == [];
  }

  /** Each line followed by a line feed. */
  function Terminar(ls: seq<string>): string
    decreases |ls|
  {
    if ls == [] then "" else ls[0] + "\n" + Terminar(ls[1..])
  }

  lemma {:induction false} TerminarConcatenar(a: seq<string>, b: seq<string>)
    ensures Terminar(a + b) == Terminar(a) + Terminar(b)
    decreases |a|
  {
    if a != [] {
      assert (a + b)[0] == a[0] && (a + b)[1..] == a[1..] + b;
      TerminarConcatenar(a[1..], b);
      assert Terminar(a + b) == a[0] + "\n" + Terminar(a[1..] + b);
    } else {
      assert a + b == b;
    }
  }

  lemma TerminarUno(l: string)
    ensures Terminar([l]) == l + "\n"
  {
    assert [l][1..] == [];
  }

  // ---------------------------------------------------------------- the serialiser

  const PrefijoLinkedin: string := "https://www.linkedin.com/in/"

  /** The appends every block starts with: the header and the formatted name. */
  function PiezasCabecera(c: Contacto): seq<string> {
    ["BEGIN:VCARD\n", "VERSION:3.0\n", "FN:" + c.nombre + "\n"]
  }

  /** The telephone line, appended only for a phone that is not blank. */
  function PiezasTelefono(c: Contacto): seq<string> {
    if !EsBlanco(c.telefono) then ["TEL;TYPE=CELL:" + c.telefono + "\n"] else []
  }

  /** The email line: the address when it is not blank, nothing when blank, `EMAIL;` when null. */
  function PiezasEmail(c: Contacto): seq<string> {
    match c.email
    case Some(e) => if !EsBlanco(e) then ["EMAIL:" + e + "\n"] else []
    case None => ["EMAIL;\n"]
  }

  /**
   * The appends every block ends with. `linkedin` and `website` are non-null strings, so
   * their `null` branches never run and both lines are always written, even when empty.
   */
  function PiezasCola(c: Contacto): seq<string> {
    ["Linkedin:" + PrefijoLinkedin + c.linkedin + "\n", "website:" + c.website + "\n", "END:VCARD\n\n"]
  }

  /** The strings one iteration of the loop appends, in order. */
  function Piezas(c: Contacto): seq<string> {
    PiezasCabecera(c) + PiezasTelefono(c) + PiezasEmail(c) + PiezasCola(c)
  }

  /** One contact's block. */
  function Bloque(c: Contacto): string {
    Juntar(Piezas(c))
  }

  function Bloques(cs: seq<Contacto>): (r: seq<string>)
    ensures |r| == |cs|
  {
    seq(|cs|, i requires 0 <= i < |cs| => Bloque(cs[i]))
  }

  /** The whole export: the blocks of `cs` in list order. */
  function VCard(cs: seq<Contacto>): (r: string)
    ensures cs == [] ==> r == ""
  {
    Juntar(Bloques(cs))
  }

  /** Exporting two lists one after the other is exporting their concatenation. */
  lemma VCardConcatenar(a: seq<Contacto>, b: seq<Contacto>)
    ensures VCard(a + b) == VCard(a) + VCard(b)
  {
    assert Bloques(a + b) == Bloques(a) + Bloques(b);
    JuntarConcatenar(Bloques(a), Bloques(b));
  }

  /** The export of one contact is its block. */
  lemma VCardDeUno(c: Contacto)
    ensures VCard([c]) == Bloque(c)
  {
    assert Bloques([c]) == [Bloque(c)];
    JuntarUno(Bloque(c));
  }

  /** One more append keeps the builder equal to what was there plus the pieces so far. */
  lemma Anotar(antes: string, piezas: seq<string>, p: string)
    ensures antes + Juntar(piezas) + p == antes + Juntar(piezas + [p])
  {
    assert (piezas + [p])[..|piezas|] == piezas;
  }

  /** `exportToVCard`: the `for` loop over the contacts appending to one builder. */
  method ExportToVCard(cs: seq<Contacto>) returns (r: string)
    ensures r == VCard(cs)
  {
    r := "";
    for i := 0 to |cs|
      invariant r == VCard(cs[..i])
    {
      r := AgregarBloque(r, cs[i]);
      assert cs[..i + 1] == cs[..i] + [cs[i]];
      VCardConcatenar(cs[..i], [cs[i]]);
      VCardDeUno(cs[i]);
    }
    assert cs[..|cs|] == cs;
  }

  /** The body of the loop: the appends for one contact, in the order the code makes them. */
  method AgregarBloque(antes: string, c: Contacto) returns (r: string)
    ensures r == antes + Bloque(c)
  {
    r := antes;
    ghost var piezas: seq<string> := [];
    assert r == antes + Juntar(piezas);
    Anotar(antes, piezas, "BEGIN:VCARD\n");
    r, piezas := r + "BEGIN:VCARD\n", piezas + ["BEGIN:VCARD\n"];
    assert r == antes + Juntar(piezas);
    Anotar(antes, piezas, "VERSION:3.0\n");
    r, piezas := r + "VERSION:3.0\n", piezas + ["VERSION:3.0\n"];
    assert r == antes + Juntar(piezas);
    Anotar(antes, piezas, "FN:" + c.nombre + "\n");
    r, piezas := r + ("FN:" + c.nombre + "\n"), piezas + ["FN:" + c.nombre + "\n"];
    assert r == antes + Juntar(piezas);
    assert piezas == PiezasCabecera(c);
    if !EsBlanco(c.telefono) {
      Anotar(antes, piezas, "TEL;TYPE=CELL:" + c.telefono + "\n");
      r, piezas := r + ("TEL;TYPE=CELL:" + c.telefono + "\n"), piezas + ["TEL;TYPE=CELL:" + c.telefono + "\n"];
      assert r == antes + Juntar(piezas);
    }
    assert piezas == PiezasCabecera(c) + PiezasTelefono(c);
    if c.email.Some? {
      if !EsBlanco(c.email.value) {
        Anotar(antes, piezas, "EMAIL:" + c.email.value + "\n");
        r, piezas := r + ("EMAIL:" + c.email.value + "\n"), piezas + ["EMAIL:" + c.email.value + "\n"];
        assert r == antes + Juntar(piezas);
      }
    } else {
      Anotar(antes, piezas, "EMAIL;\n");
      r, piezas := r + "EMAIL;\n", piezas + ["EMAIL;\n"];
      assert r == antes + Juntar(piezas);
    }
    assert piezas == PiezasCabecera(c) + PiezasTelefono(c) + PiezasEmail(c);
    Anotar(antes, piezas, "Linkedin:" + PrefijoLinkedin + c.linkedin + "\n");
    r, piezas := r + ("Linkedin:" + PrefijoLinkedin + c.linkedin + "\n"), piezas + ["Linkedin:" + PrefijoLinkedin + c.linkedin + "\n"];
    assert r == antes + Juntar(piezas);
    Anotar(antes, piezas, "website:" + c.website + "\n");
    r, piezas := r + ("website:" + c.website + "\n"), piezas + ["website:" + c.website + "\n"];
    assert r == antes + Juntar(piezas);
    Anotar(antes, piezas, "END:VCARD\n\n");
    r, piezas := r + "END:VCARD\n\n", piezas + ["END:VCARD\n\n"];
    assert r == antes + Juntar(piezas);
    assert piezas == Piezas(c);
  }

  // ---------------------------------------------------------------- the block by lines

  function LineasCabecera(c: Contacto): seq<string> {
    ["BEGIN:VCARD", "VERSION:3.0", "FN:" + c.nombre]
  }

  function LineasTelefono(c: Contacto): seq<string> {
    if !EsBlanco(c.telefono) then ["TEL;TYPE=CELL:" + c.telefono] else []
  }

  function LineasEmail(c: Contacto): seq<string> {
    match c.email
    case Some(e) => if !EsBlanco(e) then ["EMAIL:" + e] else []
    case None => ["EMAIL;"]
  }

  function LineasCola(c: Contacto): seq<string> {
    ["Linkedin:" + PrefijoLinkedin + c.linkedin, "website:" + c.website, "END:VCARD", ""]
  }

  /**
   * The lines of one block, without their line feeds: between 6 and 8 content lines and
   * the empty line that separates it from the next block.
   */
  function LineasDe(c: Contacto): (r: seq<string>)
    ensures 7 <= |r| <= 9
    ensures |r| == 7 + (if EsBlanco(c.telefono) then 0 else 1)
                     + (if c.email.Some? && EsBlanco(c.email.value) then 0 else 1)
    ensures r[0] == "BEGIN:VCARD" && r[1] == "VERSION:3.0" && r[2] == "FN:" + c.nombre
    ensures !EsBlanco(c.telefono) ==> r[3] == "TEL;TYPE=CELL:" + c.telefono
    ensures c.email.None? ==> r[|r| - 5] == "EMAIL;"
    ensures c.email.Some? && !EsBlanco(c.email.value) ==> r[|r| - 5] == "EMAIL:" + c.email.value
    ensures r[|r| - 4] == "Linkedin:" + PrefijoLinkedin + c.linkedin
    ensures r[|r| - 3] == "website:" + c.website
    ensures r[|r| - 2] == "END:VCARD" && r[|r| - 1] == ""
  {
    LineasCabecera(c) + LineasTelefono(c) + LineasEmail(c) + LineasCola(c)
  }

  /** The block is its lines, each followed by a line feed. */
  lemma BloqueEnLineas(c: Contacto)
    ensures Bloque(c) == Terminar(LineasDe(c))
  {
    var pc, pt, pe, pf := PiezasCabecera(c), PiezasTelefono(c), PiezasEmail(c), PiezasCola(c);
    var lc, lt, le, lf := LineasCabecera(c), LineasTelefono(c), LineasEmail(c), LineasCola(c);
    JuntarConcatenar(pc + pt + pe, pf);
    JuntarConcatenar(pc + pt, pe);
    JuntarConcatenar(pc, pt);
    TerminarConcatenar(lc + lt + le, lf);
    TerminarConcatenar(lc + lt, le);
    TerminarConcatenar(lc, lt);
    CabeceraEnLineas(c);
    TelefonoEnLineas(c);
    EmailEnLineas(c);
    ColaEnLineas(c);
  }

  lemma CabeceraEnLineas(c: Contacto)
    ensures Juntar(PiezasCabecera(c)) == Terminar(LineasCabecera(c))
  {
    var n := "FN:" + c.nombre;
    assert "BEGIN:VCARD\n" == "BEGIN:VCARD" + "\n";
    assert "VERSION:3.0\n" == "VERSION:3.0" + "\n";
    assert PiezasCabecera(c) == ["BEGIN:VCARD\n"] + ["VERSION:3.0\n"] + [n + "\n"];
    assert LineasCabecera(c) == ["BEGIN:VCARD"] + ["VERSION:3.0"] + [n];
    JuntarConcatenar(["BEGIN:VCARD\n"] + ["VERSION:3.0\n"], [n + "\n"]);
    JuntarConcatenar(["BEGIN:VCARD\n"], ["VERSION:3.0\n"]);
    JuntarUno("BEGIN:VCARD\n");
    JuntarUno("VERSION:3.0\n");
    JuntarUno(n + "\n");
    TerminarConcatenar(["BEGIN:VCARD"] + ["VERSION:3.0"], [n]);
    TerminarConcatenar(["BEGIN:VCARD"], ["VERSION:3.0"]);
    TerminarUno("BEGIN:VCARD");
    TerminarUno("VERSION:3.0");
    TerminarUno(n);
  }

  lemma TelefonoEnLineas(c: Contacto)
    ensures Juntar(PiezasTelefono(c)) == Terminar(LineasTelefono(c))
  {
    if !EsBlanco(c.telefono) {
      JuntarUno("TEL;TYPE=CELL:" + c.telefono + "\n");
      TerminarUno("TEL;TYPE=CELL:" + c.telefono);
    }
  }

  lemma EmailEnLineas(c: Contacto)
    ensures Juntar(PiezasEmail(c)) == Terminar(LineasEmail(c))
  {
    match c.email
    case Some(e) =>
      if !EsBlanco(e) {
        JuntarUno("EMAIL:" + e + "\n");
        TerminarUno("EMAIL:" + e);
      }
    case None =>
      assert "EMAIL;\n" == "EMAIL;" + "\n";
      JuntarUno("EMAIL;\n");
      TerminarUno("EMAIL;");
  }

  lemma ColaEnLineas(c: Contacto)
    ensures Juntar(PiezasCola(c)) == Terminar(LineasCola(c))
  {
    var l, w := "Linkedin:" + PrefijoLinkedin + c.linkedin, "website:" + c.website;
    assert "END:VCARD\n\n" == ("END:VCARD" + "\n") + ("" + "\n");
    assert PiezasCola(c) == [l + "\n"] + [w + "\n"] + ["END:VCARD\n\n"];
    assert LineasCola(c) == [l] + [w] + ["END:VCARD"] + [""];
    JuntarConcatenar([l + "\n"] + [w + "\n"], ["END:VCARD\n\n"]);
    JuntarConcatenar([l + "\n"], [w + "\n"]);
    JuntarUno(l + "\n");
    JuntarUno(w + "\n");
    JuntarUno("END:VCARD\n\n");
    TerminarConcatenar([l] + [w] + ["END:VCARD"], [""]);
    TerminarConcatenar([l] + [w], ["END:VCARD"]);
    TerminarConcatenar([l], [w]);
    TerminarUno(l);
    TerminarUno(w);
    TerminarUno("END:VCARD");
    TerminarUno("");
  }

  /** All the lists of lines, one after the other. */
  function Aplanar(lss: seq<seq<string>>): seq<string>
    decreases |lss|
  {
    if lss == [] then [] else Aplanar(lss[..|lss| - 1]) + lss[|lss| - 1]
  }

  /** The lines of the whole export, block after block. */
  function LineasVCard(cs: seq<Contacto>): seq<string> {
    Aplanar(seq(|cs|, i requires 0 <= i < |cs| => LineasDe(cs[i])))
  }

  /** Joining blocks that are each their lines terminated is terminating all the lines. */
  lemma {:induction false} JuntarBloquesDeLineas(bs: seq<string>, lss: seq<seq<string>>)
    requires |bs| == |lss| && forall i :: 0 <= i < |bs| ==> bs[i] == Terminar(lss[i])
    ensures Juntar(bs) == Terminar(Aplanar(lss))
    decreases |bs|
  {
    if bs != [] {
      var n := |bs| - 1;
      JuntarBloquesDeLineas(bs[..n], lss[..n]);
      TerminarConcatenar(Aplanar(lss[..n]), lss[n]);
    }
  }

  /** The export is its lines, each followed by a line feed. */
  lemma VCardEnLineas(cs: seq<Contacto>)
    ensures VCard(cs) == Terminar(LineasVCard(cs))
  {
    var lss := seq(|cs|, i requires 0 <= i < |cs| => LineasDe(cs[i]));
    forall i | 0 <= i < |cs| ensures Bloques(cs)[i] == Terminar(lss[i]) {
      BloqueEnLineas(cs[i]);
    }
    JuntarBloquesDeLineas(Bloques(cs), lss);
  }

  /** The block's lines start with distinct letters, so the telephone line is there exactly when the phone is not blank. */
  lemma TelefonoSii(c: Contacto)
    ensures "TEL;TYPE=CELL:" + c.telefono in LineasDe(c) <==> !EsBlanco(c.telefono)
  {
    var t := "TEL;TYPE=CELL:" + c.telefono;
    assert t[0] == 'T';
    if EsBlanco(c.telefono) {
      var ls := LineasDe(c);
      assert ls == LineasCabecera(c) + LineasEmail(c) + LineasCola(c);
      forall l | l in ls ensures l == [] || l[0] != 'T' {
        if l in LineasEmail(c) { assert l[0] == 'E'; }
        else if l in LineasCabecera(c) { assert l[0] == 'B' || l[0] == 'V' || l[0] == 'F'; }
        else { assert l == [] || l[0] == 'L' || l[0] == 'w' || l[0] == 'E'; }
      }
    }
  }

  // ---------------------------------------------------------------- reading the lines back

  /** No field the block copies holds a line feed. */
  predicate SinSaltos(c: Contacto) {
    && '\n' !in c.nombre && '\n' !in c.telefono && '\n' !in c.linkedin && '\n' !in c.website
    && (c.email.Some? ==> '\n' !in c.email.value)
  }

  /** The complete lines of a text, and what follows the last line feed. */
  datatype Lectura = Lectura(lineas: seq<string>, resto: string)

  /** The position of the first line feed, or the length when there is none. */
  function PrimerSalto(s: string): (i: nat)
    ensures i <= |s| && (i < |s| ==> s[i] == '\n')
    ensures forall k :: 0 <= k < i ==> s[k] != '\n'
  {
    if s == [] || s[0] == '\n' then 0 else 1 + PrimerSalto(s[1..])
  }

  /** Splits a text at its line feeds. */
  function Leer(s: string): (r: Lectura)
    ensures '\n' !in r.resto
    ensures forall l :: l in r.lineas ==> '\n' !in l
    decreases |s|
  {
    var i := PrimerSalto(s);
    if i == |s| then Lectura([], s)
    else
      var r := Leer(s[i + 1..]);
      Lectura([s[..i]] + r.lineas, r.resto)
  }

  lemma {:induction false} PrimerSaltoTrasLinea(l: string, t: string)
    requires '\n' !in l
    ensures PrimerSalto(l + "\n" + t) == |l|
    decreases |l|
  {
    if l != [] {
      assert (l + "\n" + t)[1..] == l[1..] + "\n" + t;
      PrimerSaltoTrasLinea(l[1..], t);
    } else {
      assert (l + "\n" + t)[0] == '\n';
    }
  }

  /** Reading a line without line feeds, its line feed and a rest: that line, then the rest read. */
  lemma LeerTrasLinea(l: string, t: string)
    requires '\n' !in l
    ensures Leer(l + "\n" + t) == Lectura([l] + Leer(t).lineas, Leer(t).resto)
  {
    var s := l + "\n" + t;
    PrimerSaltoTrasLinea(l, t);
    assert s[..|l|] == l && s[|l| + 1..] == t;
  }

  /** Reading back lines that hold no line feed gives exactly those lines and nothing after them. */
  lemma {:induction false} LeerTerminar(ls: seq<string>)
    requires forall l :: l in ls ==> '\n' !in l
    ensures Leer(Terminar(ls)) == Lectura(ls, "")
    decreases |ls|
  {
    if ls != [] {
      var t := Terminar(ls[1..]);
      assert Terminar(ls) == ls[0] + "\n" + t;
      assert ls[0] in ls;
      LeerTrasLinea(ls[0], t);
      forall l | l in ls[1..] ensures '\n' !in l {
        assert l in ls;
      }
      LeerTerminar(ls[1..]);
      assert ls == [ls[0]] + ls[1..];
    }
  }

  /** No line of `ls` holds a line feed. */
  predicate LineasSinSaltos(ls: seq<string>) {
    forall l :: l in ls ==> '\n' !in l
  }

  lemma LineasSinSaltosConcatenar(a: seq<string>, b: seq<string>)
    requires LineasSinSaltos(a) && LineasSinSaltos(b)
    ensures LineasSinSaltos(a + b)
  {
  }

  lemma CabeceraSinSaltos(c: Contacto)
    requires SinSaltos(c)
    ensures LineasSinSaltos(LineasCabecera(c))
  {
    assert '\n' !in "FN:" + c.nombre;
  }

  lemma TelefonoSinSaltos(c: Contacto)
    requires SinSaltos(c)
    ensures LineasSinSaltos(LineasTelefono(c))
  {
    if !EsBlanco(c.telefono) {
      assert '\n' !in "TEL;TYPE=CELL:" + c.telefono;
    }
  }

  lemma EmailSinSaltos(c: Contacto)
    requires SinSaltos(c)
    ensures LineasSinSaltos(LineasEmail(c))
  {
    if c.email.Some? && !EsBlanco(c.email.value) {
      assert '\n' !in "EMAIL:" + c.email.value;
    }
  }

  lemma ColaSinSaltos(c: Contacto)
    requires SinSaltos(c)
    ensures LineasSinSaltos(LineasCola(c))
  {
    assert '\n' !in "Linkedin:" + PrefijoLinkedin + c.linkedin;
    assert '\n' !in "website:" + c.website;
  }

  lemma LineasDeSinSaltos(c: Contacto)
    requires SinSaltos(c)
    ensures forall l :: l in LineasDe(c) ==> '\n' !in l
  {
    CabeceraSinSaltos(c);
    TelefonoSinSaltos(c);
    EmailSinSaltos(c);
    ColaSinSaltos(c);
    LineasSinSaltosConcatenar(LineasCabecera(c), LineasTelefono(c));
    LineasSinSaltosConcatenar(LineasCabecera(c) + LineasTelefono(c), LineasEmail(c));
    LineasSinSaltosConcatenar(LineasCabecera(c) + LineasTelefono(c) + LineasEmail(c), LineasCola(c));
    assert LineasDe(c) == LineasCabecera(c) + LineasTelefono(c) + LineasEmail(c) + LineasCola(c);
  }

  lemma {:induction false} AplanarSinSaltos(lss: seq<seq<string>>)
    requires forall i, l :: 0 <= i < |lss| && l in lss[i] ==> '\n' !in l
    ensures forall l :: l in Aplanar(lss) ==> '\n' !in l
    decreases |lss|
  {
    if lss != [] {
      AplanarSinSaltos(lss[..|lss| - 1]);
    }
  }

  /**
   * When no field holds a line feed, the export reads back as exactly the lines of the
   * blocks, with nothing after the last line feed.
   */
  lemma LeerVCard(cs: seq<Contacto>)
    requires forall i :: 0 <= i < |cs| ==> SinSaltos(cs[i])
    ensures Leer(VCard(cs)) == Lectura(LineasVCard(cs), "")
  {
    var lss := seq(|cs|, i requires 0 <= i < |cs| => LineasDe(cs[i]));
    forall i | 0 <= i < |cs| ensures forall l :: l in lss[i] ==> '\n' !in l {
      LineasDeSinSaltos(cs[i]);
    }
    AplanarSinSaltos(lss);
    VCardEnLineas(cs);
    LeerTerminar(LineasVCard(cs));
  }

  /** A line carrying the formatted name. */
  predicate EsLineaNombre(l: string) {
    |l| >= 3 && l[0] == 'F' && l[1] == 'N' && l[2] == ':'
  }

  /** The values of the `FN:` lines, in order. */
  function Nombres(ls: seq<string>): seq<string>
    decreases |ls|
  {
    if ls == [] then []
    else
      var l := ls[|ls| - 1];
      Nombres(ls[..|ls| - 1]) + (if EsLineaNombre(l) then [l[3..]] else [])
  }

  lemma {:induction false} NombresConcatenar(a: seq<string>, b: seq<string>)
    ensures Nombres(a + b) == Nombres(a) + Nombres(b)
    decreases |b|
  {
    if b == [] {
      assert a + b == a;
    } else {
      assert (a + b)[..|a + b| - 1] == a + b[..|b| - 1];
      NombresConcatenar(a, b[..|b| - 1]);
    }
  }

  /** Lines none of which is a name line contribute no name. */
  lemma {:induction false} NombresNinguno(ls: seq<string>)
    requires forall l :: l in ls ==> !EsLineaNombre(l)
    ensures Nombres(ls) == []
    decreases |ls|
  {
    if ls != [] {
      assert ls[|ls| - 1] in ls;
      forall l | l in ls[..|ls| - 1] ensures !EsLineaNombre(l) { assert l in ls; }
      NombresNinguno(ls[..|ls| - 1]);
    }
  }

  /** A block has exactly one `FN:` line, and it carries the name. */
  lemma NombresDeBloque(c: Contacto)
    ensures Nombres(LineasDe(c)) == [c.nombre]
  {
    var n := "FN:" + c.nombre;
    var resto := LineasTelefono(c) + LineasEmail(c) + LineasCola(c);
    assert LineasDe(c) == ["BEGIN:VCARD", "VERSION:3.0"] + [n] + resto;
    NombresNinguno(["BEGIN:VCARD", "VERSION:3.0"]);
    assert Nombres([n]) == [c.nombre] by {
      var vacia: seq<string> := []; assert [n][..0] == vacia;
      assert n[3..] == c.nombre;
    }
    forall l | l in resto ensures !EsLineaNombre(l) {
      if l in LineasTelefono(c) { assert l[0] == 'T'; }
      else if l in LineasEmail(c) { assert l[0] == 'E'; }
      else { assert l == [] || l[0] == 'L' || l[0] == 'w' || l[0] == 'E'; }
    }
    NombresNinguno(resto);
    NombresConcatenar(["BEGIN:VCARD", "VERSION:3.0"] + [n], resto);
    NombresConcatenar(["BEGIN:VCARD", "VERSION:3.0"], [n]);
  }

  lemma {:induction false} NombresAplanar(cs: seq<Contacto>)
    ensures Nombres(LineasVCard(cs)) == seq(|cs|, i requires 0 <= i < |cs| => cs[i].nombre)
    decreases |cs|
  {
    if cs != [] {
      var n := |cs| - 1;
      var lss := seq(|cs|, i requires 0 <= i < |cs| => LineasDe(cs[i]));
      assert lss[..n] == seq(n, i requires 0 <= i < n => LineasDe(cs[..n][i]));
      NombresAplanar(cs[..n]);
      NombresConcatenar(Aplanar(lss[..n]), LineasDe(cs[n]));
      NombresDeBloque(cs[n]);
    }
  }

  /**
   * Reading the export back and collecting the `FN:` values gives the names of the exported
   * contacts in list order, when no field holds a line feed.
   */
  lemma NombresExportados(cs: seq<Contacto>)
    requires forall i :: 0 <= i < |cs| ==> SinSaltos(cs[i])
    ensures Nombres(Leer(VCard(cs)).lineas) == seq(|cs|, i requires 0 <= i < |cs| => cs[i].nombre)
  {
    LeerVCard(cs);
    NombresAplanar(cs);
  }
}
