/** The `Contacto` record stored in the `contactos` table. */
module Modelo {
  import opened Resultados

  /**
   * A contact. `id == 0` means "not stored yet": Room binds 0 as NULL and SQLite then
   * generates the key. `email` and `categoriaId` are nullable; `linkedin` holds only the
   * profile path and `website` the full URL, both non-null and empty by default.
   * Equality is structural on all seven fields, as for a Kotlin data class.
   */
  datatype Contacto = Contacto(
    id: int := 0,
    nombre: string,
    telefono: string,
    email: Option<string>,
    categoriaId: Option<int>,
    linkedin: string := "",
    website: string := "")

  /** The contact has not been stored yet; inserting it generates its id. */
  predicate SinGuardar(c: Contacto) {
    c.id == 0
  }

  /** The key ORDER BY nombre sorts on. */
  function NombreDe(c: Contacto): string {
    c.nombre
  }

  /** A record built with only the required fields takes the defaults: id 0, empty linkedin and website. */
  lemma ValoresPorDefecto(n: string, t: string, e: Option<string>, k: Option<int>)
    ensures var c := Contacto(nombre := n, telefono := t, email := e, categoriaId := k);
      SinGuardar(c) && c.linkedin == "" && c.website == ""
  {
  }

  /**
   * `ON DELETE SET NULL` on `categoria_id`: when category `k` is deleted, a contact that
   * referred to it keeps every other field and loses its category.
   */
  function AlBorrarCategoria(c: Contacto, k: int): (r: Contacto)
    ensures r.categoriaId == (if c.categoriaId == Some(k) then None else c.categoriaId)
    ensures r.(categoriaId := c.categoriaId) == c
  {
    if c.categoriaId == Some(k) then c.(categoriaId := None) else c
  }

  /** Two contacts are equal exactly when all seven fields are. */
  lemma IgualdadPorCampos(a: Contacto, b: Contacto)
    ensures a == b <==>
      a.id == b.id && a.nombre == b.nombre && a.telefono == b.telefono && a.email == b.email
      && a.categoriaId == b.categoriaId && a.linkedin == b.linkedin && a.website == b.website
  {
  }
}
