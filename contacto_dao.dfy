/**
 * `ContactoDao`: what each annotated method does to the database value, and what each
 * `@Query` returns. The writes are the conflict strategies SQLite applies (REPLACE for
 * `insert`, ABORT for `update`, IGNORE for `insertarVarios`); every write that stores a
 * contact checks the foreign key on `categoria_id`, which Room turns on for this schema.
 */
module ContactoDao {
  import opened Resultados
  import opened Modelo
  import opened Tablas
  import opened Sql

  /** Nothing outside the contacts table and its counter differs between `a` and `b`. */
  predicate SoloContactos(a: BD, b: BD) {
    a.categorias == b.categorias && a.grupos == b.grupos && a.enlaces == b.enlaces
    && a.secCategorias == b.secCategorias && a.secGrupos == b.secGrupos
  }

  /** Every row of `a` is in `b` unchanged. */
  ghost predicate FilasConservadas(a: map<int, Contacto>, b: map<int, Contacto>) {
    forall k :: k in a ==> k in b && b[k] == a[k]
  }

  /** Outside key `id`, `a` and `b` hold the same rows. */
  ghost predicate IgualesSalvo(a: map<int, Contacto>, b: map<int, Contacto>, id: int) {
    && (forall k :: k != id ==> (k in a <==> k in b))
    && (forall k :: k != id && k in a ==> b[k] == a[k])
  }

  /** The outcome of `insert`: the new database and the row id it returns. */
  datatype Insercion = Insercion(bd: BD, id: int)

  // ---------------------------------------------------------------- writes

  /**
   * `insert` (`OnConflictStrategy.REPLACE`): stores the contact under its own id, or under a
   * fresh AUTOINCREMENT id when its id is 0, replacing any row that had that id, and returns
   * the id. A category reference naming no stored category aborts the statement.
   */
  function Insertar(bd: BD, c: Contacto): (r: Resultado<Insercion>)
    ensures r.Fallo? <==> !ReferenciaValida(bd, c.categoriaId)
    ensures r.Fallo? ==> r.error == ClaveForaneaViolada
    ensures r.Exito? ==>
      var n := r.valor.bd;
      && r.valor.id == IdAsignado(c.id, bd.secContactos)
      && r.valor.id in n.contactos && n.contactos[r.valor.id] == c.(id := r.valor.id)
      && IgualesSalvo(bd.contactos, n.contactos, r.valor.id)
      && n.secContactos == Contador(bd.secContactos, r.valor.id)
      && SoloContactos(bd, n)
  {
    if !ReferenciaValida(bd, c.categoriaId) then Fallo(ClaveForaneaViolada)
    else
      var id := IdAsignado(c.id, bd.secContactos);
      Exito(Insercion(
        bd.(contactos := bd.contactos[id := c.(id := id)], secContactos := Contador(bd.secContactos, id)),
        id))
  }

  /**
   * `update` (`@Update`, conflict ABORT): `UPDATE ... WHERE id = c.id`. With no such row
   * nothing changes and nothing fails; otherwise the row becomes `c`, if its category
   * reference is valid.
   */
  function Actualizar(bd: BD, c: Contacto): (r: Resultado<BD>)
    ensures c.id !in bd.contactos ==> r == Exito(bd)
    ensures c.id in bd.contactos ==> (r.Fallo? <==> !ReferenciaValida(bd, c.categoriaId))
    ensures r.Fallo? ==> r.error == ClaveForaneaViolada
    ensures r.Exito? ==>
      && r.valor.contactos.Keys == bd.contactos.Keys
      && IgualesSalvo(bd.contactos, r.valor.contactos, c.id)
      && (c.id in bd.contactos ==> r.valor.contactos[c.id] == c)
      && r.valor.secContactos == bd.secContactos
      && SoloContactos(bd, r.valor)
  {
    if c.id !in bd.contactos then Exito(bd)
    else if !ReferenciaValida(bd, c.categoriaId) then Fallo(ClaveForaneaViolada)
    else Exito(bd.(contactos := bd.contactos[c.id := c]))
  }

  /**
   * `delete` (`@Delete`): `DELETE ... WHERE id = c.id`. Only the primary key of the argument
   * matters; the link table has no foreign key, so links stay.
   */
  function Eliminar(bd: BD, c: Contacto): (r: BD)
    ensures r.contactos.Keys == bd.contactos.Keys - {c.id}
    ensures forall k :: k in r.contactos ==> r.contactos[k] == bd.contactos[k]
    ensures r.secContactos == bd.secContactos && SoloContactos(bd, r)
  {
    bd.(contactos := bd.contactos - {c.id})
  }

  /** One row of `insertarVarios` (`OnConflictStrategy.IGNORE`): a row whose key is taken is skipped. */
  function InsertarIgnorando(bd: BD, c: Contacto): (r: Resultado<BD>)
    ensures c.id != 0 && c.id in bd.contactos ==> r == Exito(bd)
    ensures r.Exito? ==> FilasConservadas(bd.contactos, r.valor.contactos) && SoloContactos(bd, r.valor)
    ensures r.Fallo? ==> r.error == ClaveForaneaViolada
  {
    if IdAsignado(c.id, bd.secContactos) in bd.contactos then Exito(bd)
    else
      match Insertar(bd, c)
      case Fallo(e) => Fallo(e)
      case Exito(ins) => Exito(ins.bd)
  }

  /**
   * `insertarVarios`: the rows one after another with IGNORE, inside one transaction; a
   * foreign-key failure on any row aborts the whole batch.
   */
  function InsertarVarios(bd: BD, cs: seq<Contacto>): (r: Resultado<BD>)
    decreases |cs|
  {
    if cs == [] then Exito(bd)
    else
      match InsertarIgnorando(bd, cs[0])
      case Fallo(e) => Fallo(e)
      case Exito(b) => InsertarVarios(b, cs[1..])
  }

  // ---------------------------------------------------------------- queries

  /** The WHERE clause of `searchContactos`: `nombre LIKE :p OR telefono LIKE :p`. */
  predicate Coincide(p: string, c: Contacto) {
    Like(p, c.nombre) || Like(p, c.telefono)
  }

  /** `getAllContactos`: `SELECT * FROM contactos ORDER BY nombre ASC`. */
  function TodosOrdenados(bd: BD): (r: seq<Contacto>)
    ensures |r| == |bd.contactos|
    ensures forall x :: x in r <==> x in bd.contactos.Values
    ensures OrdenadoPor(r, NombreDe)
  {
    OrdenarPorOrdena(Filas(bd.contactos), NombreDe);
    OrdenarPor(Filas(bd.contactos), NombreDe)
  }

  /** `searchContactos(p)`: the rows whose name or phone matches `p`, sorted by name. */
  function Buscar(bd: BD, p: string): (r: seq<Contacto>)
    ensures forall x :: x in r <==> x in bd.contactos.Values && Coincide(p, x)
    ensures OrdenadoPor(r, NombreDe)
    ensures Valida(bd) ==> SinRepetidos(r)
  {
    var s := Filtrar(Filas(bd.contactos), c => Coincide(p, c));
    assert Valida(bd) ==> SinRepetidos(s) by {
      if Valida(bd) {
        FilasSinRepetidos(bd.contactos, IdContacto);
        FiltrarSinRepetidos(Filas(bd.contactos), c => Coincide(p, c));
      }
    }
    OrdenarPorOrdena(s, NombreDe);
    OrdenarPor(s, NombreDe)
  }

  /** `getAllContactosForBackup` and `getTodosComoLista`: `SELECT * FROM contactos`, in rowid order. */
  function TodosComoLista(bd: BD): (r: seq<Contacto>)
    ensures |r| == |bd.contactos|
    ensures forall x :: x in r <==> x in bd.contactos.Values
  {
    Filas(bd.contactos)
  }

  /** `getContactoById(id)`: the row with that key, or null. */
  function PorId(bd: BD, id: int): (r: Option<Contacto>)
    ensures r.Some? <==> id in bd.contactos
    ensures r.Some? ==> r.value == bd.contactos[id]
  {
    if id in bd.contactos then Some(bd.contactos[id]) else None
  }

  /** `getContactosPorCategoria(k)`: the rows whose `categoria_id` is `k`, sorted by name. */
  function PorCategoria(bd: BD, k: int): (r: seq<Contacto>)
    ensures forall x :: x in r <==> x in bd.contactos.Values && x.categoriaId == Some(k)
    ensures OrdenadoPor(r, NombreDe)
    ensures Valida(bd) ==> SinRepetidos(r)
  {
    var s := Filtrar(Filas(bd.contactos), (c: Contacto) => c.categoriaId == Some(k));
    assert Valida(bd) ==> SinRepetidos(s) by {
      if Valida(bd) {
        FilasSinRepetidos(bd.contactos, IdContacto);
        FiltrarSinRepetidos(Filas(bd.contactos), (c: Contacto) => c.categoriaId == Some(k));
      }
    }
    OrdenarPorOrdena(s, NombreDe);
    OrdenarPor(s, NombreDe)
  }

  // ---------------------------------------------------------------- lemmas

  /** `insert` keeps the database invariant. */
  lemma InsertarPreservaValida(bd: BD, c: Contacto)
    requires Valida(bd)
    ensures Insertar(bd, c).Exito? ==> Valida(Insertar(bd, c).valor.bd)
  {
  }

  /**
   * Inserting an unsaved contact (id 0) uses an id never used before in the table, larger than
   * every stored id, and adds exactly one row; inserting a contact with a stored id replaces
   * that row and keeps the row count.
   */
  lemma InsertarIdNuevo(bd: BD, c: Contacto)
    requires Valida(bd) && Insertar(bd, c).Exito?
    ensures var ins := Insertar(bd, c).valor;
      && (SinGuardar(c) ==>
            ins.id > bd.secContactos && ins.id !in bd.contactos && (forall k :: k in bd.contactos ==> k < ins.id))
      && |ins.bd.contactos| == if ins.id in bd.contactos then |bd.contactos| else |bd.contactos| + 1
  {
    var id := Insertar(bd, c).valor.id;
    if SinGuardar(c) { IdGeneradoEsNuevo(bd.contactos, bd.secContactos); }
  }

  /** `update` keeps the database invariant. */
  lemma ActualizarPreservaValida(bd: BD, c: Contacto)
    requires Valida(bd)
    ensures Actualizar(bd, c).Exito? ==> Valida(Actualizar(bd, c).valor)
  {
  }

  /** `delete` keeps the database invariant. */
  lemma EliminarPreservaValida(bd: BD, c: Contacto)
    requires Valida(bd)
    ensures Valida(Eliminar(bd, c))
  {
  }

  /** `delete` looks only at the primary key of its argument. */
  lemma EliminarSoloPorClave(bd: BD, c: Contacto, d: Contacto)
    requires c.id == d.id
    ensures Eliminar(bd, c) == Eliminar(bd, d)
  {
  }

  /** `insertarVarios` keeps the invariant, never changes a stored row and touches no other table. */
  lemma {:induction false} InsertarVariosConserva(bd: BD, cs: seq<Contacto>)
    requires Valida(bd)
    ensures InsertarVarios(bd, cs).Exito? ==>
      var n := InsertarVarios(bd, cs).valor;
      Valida(n) && FilasConservadas(bd.contactos, n.contactos) && SoloContactos(bd, n)
      && n.secContactos >= bd.secContactos
    decreases |cs|
  {
    if cs != [] {
      var r1 := InsertarIgnorando(bd, cs[0]);
      if r1.Exito? {
        InsertarPreservaValida(bd, cs[0]);
        InsertarVariosConserva(r1.valor, cs[1..]);
      }
    }
  }

  /** Every row of the batch is unsaved and its category reference is valid. */
  predicate NuevosConReferencia(bd: BD, cs: seq<Contacto>) {
    forall i :: 0 <= i < |cs| ==> SinGuardar(cs[i]) && ReferenciaValida(bd, cs[i].categoriaId)
  }

  /**
   * A batch of unsaved contacts with valid category references is stored in full: the i-th
   * row gets id `secContactos + 1 + i`, and the table gains exactly those ids.
   */
  lemma {:induction false} InsertarVariosNuevos(bd: BD, cs: seq<Contacto>)
    requires Valida(bd) && NuevosConReferencia(bd, cs)
    ensures InsertarVarios(bd, cs).Exito?
    ensures var n := InsertarVarios(bd, cs).valor;
      && n.secContactos == bd.secContactos + |cs|
      && (forall k :: k in n.contactos <==> k in bd.contactos || bd.secContactos < k <= bd.secContactos + |cs|)
      && (forall i :: 0 <= i < |cs| ==>
            n.contactos[bd.secContactos + 1 + i] == cs[i].(id := bd.secContactos + 1 + i))
    decreases |cs|
  {
    if cs != [] {
      IdGeneradoEsNuevo(bd.contactos, bd.secContactos);
      var b1 := InsertarIgnorando(bd, cs[0]).valor;
      assert b1.categorias == bd.categorias;
      assert NuevosConReferencia(b1, cs[1..]);
      InsertarPreservaValida(bd, cs[0]);
      InsertarVariosNuevos(b1, cs[1..]);
      InsertarVariosConserva(b1, cs[1..]);
      var n := InsertarVarios(b1, cs[1..]).valor;
      assert InsertarVarios(bd, cs) == InsertarVarios(b1, cs[1..]);
      forall i | 0 <= i < |cs|
        ensures n.contactos[bd.secContactos + 1 + i] == cs[i].(id := bd.secContactos + 1 + i)
      {
        if i > 0 { assert cs[1..][i - 1] == cs[i]; }
      }
    }
  }

  /**
   * A batch of unsaved contacts fails exactly when one of its rows names a category that is
   * not stored; the batch leaves the categories alone, so every row is checked against the
   * categories stored before it started.
   */
  lemma {:induction false} InsertarVariosFalla(bd: BD, cs: seq<Contacto>)
    requires Valida(bd)
    requires forall i :: 0 <= i < |cs| ==> SinGuardar(cs[i])
    ensures InsertarVarios(bd, cs).Fallo? <==> exists i :: 0 <= i < |cs| && !ReferenciaValida(bd, cs[i].categoriaId)
    decreases |cs|
  {
    if cs != [] {
      IdGeneradoEsNuevo(bd.contactos, bd.secContactos);
      var r1 := InsertarIgnorando(bd, cs[0]);
      if r1.Exito? {
        InsertarPreservaValida(bd, cs[0]);
        InsertarVariosFalla(r1.valor, cs[1..]);
        if exists i :: 0 <= i < |cs| && !ReferenciaValida(bd, cs[i].categoriaId) {
          var i :| 0 <= i < |cs| && !ReferenciaValida(bd, cs[i].categoriaId);
          assert cs[1..][i - 1] == cs[i];
        }
        if exists i :: 0 <= i < |cs[1..]| && !ReferenciaValida(r1.valor, cs[1..][i].categoriaId) {
          var i :| 0 <= i < |cs[1..]| && !ReferenciaValida(r1.valor, cs[1..][i].categoriaId);
          assert cs[1..][i] == cs[i + 1];
        }
      }
    }
  }
}
