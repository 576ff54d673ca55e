/**
 * `GrupoDao`: the group table, the contact/group link table and the join that lists a
 * contact's groups.
 */
module GrupoDao {
  import opened Resultados
  import opened Modelo
  import opened Tablas
  import opened Sql

  /**
   * `crearGrupo` (`OnConflictStrategy.IGNORE`): a group with id 0 gets a fresh AUTOINCREMENT
   * id; one whose id is already stored is silently dropped.
   */
  function CrearGrupo(bd: BD, g: Grupo): (r: BD)
    ensures forall k :: k in bd.grupos ==> k in r.grupos && r.grupos[k] == bd.grupos[k]
    ensures IdAsignado(g.id, bd.secGrupos) in bd.grupos ==> r == bd
    ensures IdAsignado(g.id, bd.secGrupos) !in bd.grupos ==>
      var id := IdAsignado(g.id, bd.secGrupos);
      && r.grupos.Keys == bd.grupos.Keys + {id}
      && r.grupos[id] == g.(id := id)
      && r.secGrupos == Contador(bd.secGrupos, id)
    ensures r.contactos == bd.contactos && r.categorias == bd.categorias && r.enlaces == bd.enlaces
    ensures r.secContactos == bd.secContactos && r.secCategorias == bd.secCategorias
  {
    var id := IdAsignado(g.id, bd.secGrupos);
    if id in bd.grupos then bd
    else bd.(grupos := bd.grupos[id := g.(id := id)], secGrupos := Contador(bd.secGrupos, id))
  }

  /**
   * `addContactoAGrupo` (`OnConflictStrategy.IGNORE`): the pair is the primary key, so a
   * repeated pair is dropped; the link table has no foreign keys, so nothing else is checked.
   */
  function AgregarEnlace(bd: BD, e: Enlace): (r: BD)
    ensures e in r.enlaces
    ensures e in bd.enlaces ==> r == bd
    ensures bd.enlaces <= r.enlaces && r.enlaces - bd.enlaces <= {e}
    ensures r.(enlaces := bd.enlaces) == bd
  {
    bd.(enlaces := bd.enlaces + {e})
  }

  /** `removeContactoDeGrupo` (`@Delete` on the link row): removes exactly that pair. */
  function QuitarEnlace(bd: BD, e: Enlace): (r: BD)
    ensures e !in r.enlaces
    ensures forall f :: f != e ==> (f in r.enlaces <==> f in bd.enlaces)
    ensures r.(enlaces := bd.enlaces) == bd
  {
    bd.(enlaces := bd.enlaces - {e})
  }

  /**
   * `limpiarGruposDeContacto(x)`: `DELETE FROM grupos_table WHERE id = :contactoId`.
   * Despite its name it deletes the GROUP whose id is `x`; the link table is untouched.
   */
  function LimpiarGruposDeContacto(bd: BD, x: int): (r: BD)
    ensures r.grupos.Keys == bd.grupos.Keys - {x}
    ensures forall k :: k in r.grupos ==> r.grupos[k] == bd.grupos[k]
    ensures r.enlaces == bd.enlaces
    ensures r.(grupos := bd.grupos) == bd
  {
    bd.(grupos := bd.grupos - {x})
  }

  function NombreGrupo(g: Grupo): string { g.nombre }

  /** `getTodosLosGrupos`: `SELECT * FROM grupos_table ORDER BY nombre ASC`. */
  function TodosLosGrupos(bd: BD): (r: seq<Grupo>)
    ensures |r| == |bd.grupos|
    ensures forall g :: g in r <==> g in bd.grupos.Values
    ensures OrdenadoPor(r, NombreGrupo)
  {
    OrdenarPorOrdena(Filas(bd.grupos), NombreGrupo);
    OrdenarPor(Filas(bd.grupos), NombreGrupo)
  }

  /**
   * The stored groups `id` is linked to, in rowid order. The link table's key is the pair,
   * so each linked group comes back once.
   */
  function GruposEnlazados(bd: BD, id: int): (r: seq<Grupo>)
    ensures forall g :: g in r <==> g in bd.grupos.Values && Enlace(id, g.id) in bd.enlaces
    ensures Valida(bd) ==> SinRepetidos(r)
  {
    var s := Filtrar(Filas(bd.grupos), (g: Grupo) => Enlace(id, g.id) in bd.enlaces);
    assert Valida(bd) ==> SinRepetidos(s) by {
      if Valida(bd) {
        FilasSinRepetidos(bd.grupos, IdGrupo);
        FiltrarSinRepetidos(Filas(bd.grupos), (g: Grupo) => Enlace(id, g.id) in bd.enlaces);
      }
    }
    s
  }

  /**
   * `getGruposDeUnContacto(id)`: the contact with that id with the groups linked to it, or
   * null when no contact has that id. Links to deleted groups contribute nothing.
   */
  function GruposDeUnContacto(bd: BD, id: int): (r: Option<ContactoConGrupos>)
    ensures r.Some? <==> id in bd.contactos
    ensures r.Some? ==> r.value.contacto == bd.contactos[id]
    ensures r.Some? ==> forall g :: g in r.value.grupos <==> g in bd.grupos.Values && Enlace(id, g.id) in bd.enlaces
    ensures r.Some? && Valida(bd) ==> SinRepetidos(r.value.grupos)
  {
    if id in bd.contactos then Some(ContactoConGrupos(bd.contactos[id], GruposEnlazados(bd, id))) else None
  }

  lemma CrearGrupoPreservaValida(bd: BD, g: Grupo)
    requires Valida(bd)
    ensures Valida(CrearGrupo(bd, g))
  {
    var id := IdAsignado(g.id, bd.secGrupos);
    if id !in bd.grupos {
      var r := CrearGrupo(bd, g);
      assert forall k :: k in r.grupos ==> r.grupos[k].id == k && k <= r.secGrupos;
    }
  }

  /** A write that changes only the link table keeps the invariant, which says nothing about links. */
  lemma SoloEnlacesPreservaValida(bd: BD, r: BD)
    requires Valida(bd) && r == bd.(enlaces := r.enlaces)
    ensures Valida(r)
  {
    assert r.contactos == bd.contactos && r.categorias == bd.categorias && r.grupos == bd.grupos;
    assert r.secContactos == bd.secContactos && r.secCategorias == bd.secCategorias && r.secGrupos == bd.secGrupos;
  }

  lemma LimpiarPreservaValida(bd: BD, x: int)
    requires Valida(bd)
    ensures Valida(LimpiarGruposDeContacto(bd, x))
  {
    var r := LimpiarGruposDeContacto(bd, x);
    assert r.contactos == bd.contactos && r.categorias == bd.categorias;
    assert forall k :: k in r.grupos ==> r.grupos[k].id == k && k <= r.secGrupos;
  }

  /** Every write of this DAO keeps the database invariant. */
  lemma EscriturasPreservanValida(bd: BD, g: Grupo, e: Enlace, x: int)
    requires Valida(bd)
    ensures Valida(CrearGrupo(bd, g))
    ensures Valida(AgregarEnlace(bd, e)) && Valida(QuitarEnlace(bd, e))
    ensures Valida(LimpiarGruposDeContacto(bd, x))
  {
    CrearGrupoPreservaValida(bd, g);
    SoloEnlacesPreservaValida(bd, AgregarEnlace(bd, e));
    SoloEnlacesPreservaValida(bd, QuitarEnlace(bd, e));
    LimpiarPreservaValida(bd, x);
  }

  /** Adding a link and removing it again leaves the links as they were, if it was not there before. */
  lemma QuitarDeshaceAgregar(bd: BD, e: Enlace)
    requires e !in bd.enlaces
    ensures QuitarEnlace(AgregarEnlace(bd, e), e) == bd
  {
  }

  /**
   * Deleting group `x` with `limpiarGruposDeContacto` removes it from every contact's joined
   * groups, but the link rows naming it stay in the link table.
   */
  lemma LimpiarDejaEnlaces(bd: BD, x: int, c: int)
    requires Valida(bd)
    ensures var r := LimpiarGruposDeContacto(bd, x);
      && (Enlace(c, x) in bd.enlaces ==> Enlace(c, x) in r.enlaces)
      && (forall g :: g in GruposEnlazados(r, c) ==> g.id != x)
  {
    var r := LimpiarGruposDeContacto(bd, x);
    forall g | g in GruposEnlazados(r, c) ensures g.id != x {
      var k :| k in r.grupos && r.grupos[k] == g;
    }
  }
}
