/**
 * The four tables of the Room database `ContactosDatabase` as one value: contacts,
 * categories, groups and the contact/group link table, plus the AUTOINCREMENT counters
 * SQLite keeps in `sqlite_sequence`.
 */
module Tablas {
  import opened Resultados
  import opened Modelo

  /** A row of `categorias`. */
  datatype Categoria = Categoria(id: int := 0, nombre: string)

  /** A row of `grupos_table`. */
  datatype Grupo = Grupo(id: int := 0, nombre: string)

  /** A row of `contacto_grupo_cross_ref`; the pair is the primary key. */
  datatype Enlace = Enlace(contactoId: int, grupoId: int)

  /** A contact together with the groups it is linked to (the `@Relation` over the link table). */
  datatype ContactoConGrupos = ContactoConGrupos(contacto: Contacto, grupos: seq<Grupo>)

  /**
   * The database. Each map is keyed by the row's primary key; `enlaces` is a set because
   * its primary key is the whole row. `sec*` is the largest key ever used in that table.
   */
  datatype BD = BD(
    contactos: map<int, Contacto>,
    categorias: map<int, Categoria>,
    grupos: map<int, Grupo>,
    enlaces: set<Enlace>,
    secContactos: int,
    secCategorias: int,
    secGrupos: int)

  /** A freshly created database file: no rows, counters at zero. */
  function Vacia(): (r: BD)
    ensures Valida(r)
    ensures r.contactos == map[] && r.categorias == map[] && r.grupos == map[] && r.enlaces == {}
  {
    BD(map[], map[], map[], {}, 0, 0, 0)
  }

  /** The value stored in `categoria_id` satisfies the foreign key: NULL, or a stored category. */
  predicate ReferenciaValida(bd: BD, k: Option<int>) {
    k.None? || k.value in bd.categorias
  }

  /**
   * The database invariant: every row sits under its own id, no key exceeds the table's
   * AUTOINCREMENT counter, and every contact's category reference is valid.
   */
  predicate Valida(bd: BD) {
    && bd.secContactos >= 0 && bd.secCategorias >= 0 && bd.secGrupos >= 0
    && (forall k :: k in bd.contactos ==> bd.contactos[k].id == k && k <= bd.secContactos)
    && (forall k :: k in bd.categorias ==> bd.categorias[k].id == k && k <= bd.secCategorias)
    && (forall k :: k in bd.grupos ==> bd.grupos[k].id == k && k <= bd.secGrupos)
    && (forall k :: k in bd.contactos ==> ReferenciaValida(bd, bd.contactos[k].categoriaId))
  }

  /**
   * The key an insert uses. Room binds an autogenerated key of 0 as NULL (`nullif(?, 0)`),
   * and AUTOINCREMENT then takes one more than the largest key ever used; any other key is
   * used as given.
   */
  function IdAsignado(pedido: int, sec: int): (r: int)
    ensures pedido == 0 ==> r == sec + 1
    ensures pedido != 0 ==> r == pedido
  {
    if pedido == 0 then sec + 1 else pedido
  }

  /** The counter after a row with key `id` was inserted. */
  function Contador(sec: int, id: int): (r: int)
    ensures r >= sec && r >= id && (r == sec || r == id)
  {
    if id > sec then id else sec
  }

  /** A generated key was never used before in that table, so it names no stored row. */
  lemma IdGeneradoEsNuevo<T>(m: map<int, T>, sec: int)
    requires forall k :: k in m ==> k <= sec
    ensures IdAsignado(0, sec) !in m
    ensures forall k :: k in m ==> k < IdAsignado(0, sec)
  {
  }

  /** The primary key of a row, read through the row: rows of a valid table are told apart by it. */
  function IdContacto(c: Contacto): int { c.id }
  function IdCategoria(c: Categoria): int { c.id }
  function IdGrupo(g: Grupo): int { g.id }
}
