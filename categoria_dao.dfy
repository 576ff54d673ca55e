/** `CategoriaDao`: `insert` with IGNORE and the list of categories sorted by name. */
module CategoriaDao {
  import opened Modelo
  import opened Tablas
  import opened Sql

  /** Every category of `a` is in `b` unchanged. */
  ghost predicate CategoriasConservadas(a: BD, b: BD) {
    forall k :: k in a.categorias ==> k in b.categorias && b.categorias[k] == a.categorias[k]
  }

  /**
   * `insert` (`OnConflictStrategy.IGNORE`): a category with id 0 gets a fresh AUTOINCREMENT
   * id; one whose id is already stored is silently dropped. The table has no foreign key,
   * so the insert never fails.
   */
  function Insertar(bd: BD, k: Categoria): (r: BD)
    ensures CategoriasConservadas(bd, r)
    ensures IdAsignado(k.id, bd.secCategorias) in bd.categorias ==> r == bd
    ensures IdAsignado(k.id, bd.secCategorias) !in bd.categorias ==>
      var id := IdAsignado(k.id, bd.secCategorias);
      && r.categorias.Keys == bd.categorias.Keys + {id}
      && r.categorias[id] == k.(id := id)
      && r.secCategorias == Contador(bd.secCategorias, id)
    ensures r.contactos == bd.contactos && r.grupos == bd.grupos && r.enlaces == bd.enlaces
    ensures r.secContactos == bd.secContactos && r.secGrupos == bd.secGrupos
  {
    var id := IdAsignado(k.id, bd.secCategorias);
    if id in bd.categorias then bd
    else bd.(categorias := bd.categorias[id := k.(id := id)], secCategorias := Contador(bd.secCategorias, id))
  }

  function NombreCategoria(k: Categoria): string { k.nombre }

  /** `getAllCategorias`: `SELECT * FROM categorias ORDER BY nombre ASC`. */
  function TodasOrdenadas(bd: BD): (r: seq<Categoria>)
    ensures |r| == |bd.categorias|
    ensures forall x :: x in r <==> x in bd.categorias.Values
    ensures OrdenadoPor(r, NombreCategoria)
  {
    OrdenarPorOrdena(Filas(bd.categorias), NombreCategoria);
    OrdenarPor(Filas(bd.categorias), NombreCategoria)
  }

  /** `insert` keeps the database invariant. */
  lemma InsertarPreservaValida(bd: BD, k: Categoria)
    requires Valida(bd)
    ensures Valida(Insertar(bd, k))
  {
    var id := IdAsignado(k.id, bd.secCategorias);
    if id !in bd.categorias {
      var r := Insertar(bd, k);
      assert forall x :: x in r.categorias ==> r.categorias[x].id == x && x <= r.secCategorias;
    }
  }

  /** An unsaved category gets an id never used before, so the table grows by one row. */
  lemma InsertarSinGuardarAgrega(bd: BD, k: Categoria)
    requires Valida(bd) && k.id == 0
    ensures |Insertar(bd, k).categorias| == |bd.categorias| + 1
  {
    IdGeneradoEsNuevo(bd.categorias, bd.secCategorias);
  }

  /** Inserting the same category twice is inserting it once, for a category with its own id. */
  lemma InsertarIdempotente(bd: BD, k: Categoria)
    requires k.id != 0
    ensures Insertar(Insertar(bd, k), k) == Insertar(bd, k)
  {
  }
}
