/**
 * `MainActivity`: the URLs opened from a contact row and the guard in front of the vCard
 * export. The URLs are pure string expressions; the export writes the current list's
 * vCard text, unless that list is null or empty.
 */
module Principal {
  import opened Resultados
  import opened Modelo
  import opened VCard
  import VistaContactos

  // ---------------------------------------------------------------- URLs

  /** Kotlin `s.startsWith(p)`. */
  predicate EmpiezaCon(s: string, p: string) {
    |p| <= |s| && s[..|p|] == p
  }

  predicate TieneEsquema(url: string) {
    EmpiezaCon(url, "http://") || EmpiezaCon(url, "https://")
  }

  /** `onWebsiteClick`: "http://" is put in front of a URL that has neither scheme. */
  function UrlWebsite(url: string): (r: string)
    ensures TieneEsquema(url) ==> r == url
    ensures !TieneEsquema(url) ==> r == "http://" + url
  {
    if !EmpiezaCon(url, "http://") && !EmpiezaCon(url, "https://") then "http://" + url else url
  }

  /** The URL opened always has a scheme, and normalising it again changes nothing. */
  lemma UrlWebsiteNormaliza(url: string)
    ensures TieneEsquema(UrlWebsite(url))
    ensures UrlWebsite(UrlWebsite(url)) == UrlWebsite(url)
  {
    if !TieneEsquema(url) {
      assert ("http://" + url)[..7] == "http://";
    }
  }

  /** The opened URL ends with the stored text: the stored text is never altered, only prefixed. */
  lemma UrlWebsiteConserva(url: string)
    ensures |url| <= |UrlWebsite(url)| && UrlWebsite(url)[|UrlWebsite(url)| - |url|..] == url
  {
    if !TieneEsquema(url) {
      assert ("http://" + url)[7..] == url;
    }
  }

  /** `onLinkedinClick`: the profile path after the fixed LinkedIn prefix. */
  function UrlLinkedin(perfil: string): (r: string)
    ensures EmpiezaCon(r, PrefijoLinkedin) && r[|PrefijoLinkedin|..] == perfil
  {
    "https://www.linkedin.com/in/" + perfil
  }

  /** The URL a click opens is the one the vCard block of that contact carries on its Linkedin line. */
  lemma LinkedinComoEnVCard(c: Contacto)
    ensures var ls := LineasDe(c); ls[|ls| - 4] == "Linkedin:" + UrlLinkedin(c.linkedin)
  {
  }

  // ---------------------------------------------------------------- the export guard

  /**
   * The vcard launcher's callback: nothing is written (a message is shown instead) when
   * the list is null or empty; otherwise the file receives the list's vCard text.
   */
  function Exportar(contactos: Option<seq<Contacto>>): (r: Option<string>)
    ensures r.None? <==> contactos == None || contactos == Some([])
    ensures r.Some? ==> r.value == VCard.VCard(contactos.value)
  {
    match contactos
    case None => None
    case Some(cs) => if cs == [] then None else Some(VCard.VCard(cs))
  }

  /** A written file is never empty: it starts with the first contact's "BEGIN:VCARD" line. */
  lemma ExportarEmpieza(cs: seq<Contacto>)
    requires cs != []
    ensures var r := Exportar(Some(cs)); r.Some? && |r.value| >= 12 && r.value[..12] == "BEGIN:VCARD\n"
  {
    var b := "BEGIN:VCARD\n";
    assert [cs[0]] + cs[1..] == cs;
    VCardConcatenar([cs[0]], cs[1..]);
    VCardDeUno(cs[0]);
    var p := Piezas(cs[0]);
    assert p == [b] + p[1..];
    JuntarConcatenar([b], p[1..]);
    JuntarUno(b);
    var resto := Juntar(p[1..]) + VCard.VCard(cs[1..]);
    assert VCard.VCard(cs) == b + resto;
    assert (b + resto)[..12] == b;
  }

  /** Read back line by line, a written file names the exported contacts in list order. */
  lemma ExportarNombres(cs: seq<Contacto>)
    requires cs != [] && forall i :: 0 <= i < |cs| ==> SinSaltos(cs[i])
    ensures var r := Exportar(Some(cs));
      r.Some? && Nombres(Leer(r.value).lineas) == seq(|cs|, i requires 0 <= i < |cs| => cs[i].nombre)
  {
    NombresExportados(cs);
  }

  class MainActivity {
    const viewModel: VistaContactos.ContactosViewModel

    constructor (viewModel: VistaContactos.ContactosViewModel)
      ensures this.viewModel == viewModel
    {
      this.viewModel := viewModel;
    }

    /** The vcard launcher's callback, once a file was chosen: what it writes to the file, if anything. */
    method ExportarVCard() returns (escrito: Option<string>)
      ensures escrito == Exportar(Some(VistaContactos.Lista(viewModel.repo.db.Estado(), viewModel.consulta)))
    {
      var contactos := viewModel.GetContactosParaExportar();
      if contactos == None || contactos.value == [] {
        return None;
      }
      var texto := ExportToVCard(contactos.value);
      escrito := Some(texto);
    }
  }
}
