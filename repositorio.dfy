/**
 * `ContactosRepository`: the use cases over the DAOs. Searching wraps the query in `%`,
 * restoring re-inserts a backup row by row, importing filters the device's phone rows
 * against a snapshot of the stored phones and stores the rest in one batch, and updating a
 * contact's groups only ever adds links.
 */
module Repositorio {
  import opened Resultados
  import opened Modelo
  import opened Tablas
  import opened Texto
  import opened Sql
  import ContactoDao
  import CategoriaDao
  import GrupoDao
  import opened BaseDeDatos

  // ---------------------------------------------------------------- search

  /** The LIKE pattern `buscarContactos` passes down: `"%$query%"`. */
  function PatronBusqueda(q: string): (r: string)
    ensures |r| == |q| + 2 && r[0] == '%' && r[|r| - 1] == '%' && r[1..|r| - 1] == q
  {
    "%" + q + "%"
  }

  /**
   * For a query without `%` or `_`, the search returns exactly the stored contacts whose
   * name or phone contains the query as a substring, ignoring ASCII case.
   */
  lemma BuscarPorSubcadena(bd: BD, q: string, x: Contacto)
    requires SinComodines(q)
    ensures x in ContactoDao.Buscar(bd, PatronBusqueda(q)) <==>
      x in bd.contactos.Values && (ContieneSinMayusculas(x.nombre, q) || ContieneSinMayusculas(x.telefono, q))
  {
    LikeContiene(q, x.nombre);
    LikeContiene(q, x.telefono);
  }

  /** Searching for the empty text matches every row: the result is the full sorted list. */
  lemma BuscarVacioEsTodos(bd: BD)
    ensures ContactoDao.Buscar(bd, PatronBusqueda("")) == ContactoDao.TodosOrdenados(bd)
  {
    var s := Filas(bd.contactos);
    assert PatronBusqueda("") == "%%";
    forall c | c in s ensures ContactoDao.Coincide("%%", c) {
      LikeDosPorcentajes(c.nombre);
    }
    FiltrarTodos(s, c => ContactoDao.Coincide("%%", c));
  }

  // ---------------------------------------------------------------- restore

  /** The database after a sequence of writes, and whether the sequence ended by throwing. */
  datatype Tras = Tras(bd: BD, resultado: Resultado<()>)

  /**
   * `restaurarContactos`: `insert` (REPLACE) of each backed-up contact in list order, so a
   * non-zero id overwrites the stored row with that id. The first exception stops the loop
   * and propagates; the rows inserted before it stay.
   */
  function Restaurar(bd: BD, cs: seq<Contacto>): (r: Tras)
    decreases |cs|
  {
    if cs == [] then Tras(bd, Exito(()))
    else
      match ContactoDao.Insertar(bd, cs[0])
      case Fallo(e) => Tras(bd, Fallo(e))
      case Exito(ins) => Restaurar(ins.bd, cs[1..])
  }

  /** Restoring keeps the invariant and never touches anything but the contacts table. */
  lemma {:induction false} RestaurarPreservaValida(bd: BD, cs: seq<Contacto>)
    requires Valida(bd)
    ensures Valida(Restaurar(bd, cs).bd) && ContactoDao.SoloContactos(bd, Restaurar(bd, cs).bd)
    ensures Restaurar(bd, cs).bd.secContactos >= bd.secContactos
    decreases |cs|
  {
    if cs != [] {
      var r1 := ContactoDao.Insertar(bd, cs[0]);
      ContactoDao.InsertarPreservaValida(bd, cs[0]);
      if r1.Exito? { RestaurarPreservaValida(r1.valor.bd, cs[1..]); }
    }
  }

  /** No entry of `cs` carries id `k`. */
  predicate NoNombra(cs: seq<Contacto>, k: int) {
    forall j :: 0 <= j < |cs| ==> cs[j].id != k
  }

  /** A stored row that no backup entry names explicitly survives the restore unchanged. */
  lemma {:induction false} RestaurarConserva(bd: BD, cs: seq<Contacto>, k: int)
    requires Valida(bd) && k in bd.contactos && NoNombra(cs, k)
    ensures k in Restaurar(bd, cs).bd.contactos && Restaurar(bd, cs).bd.contactos[k] == bd.contactos[k]
    decreases |cs|
  {
    if cs != [] {
      var r1 := ContactoDao.Insertar(bd, cs[0]);
      if r1.Exito? {
        IdGeneradoEsNuevo(bd.contactos, bd.secContactos);
        ContactoDao.InsertarPreservaValida(bd, cs[0]);
        assert NoNombra(cs[1..], k) by {
          forall j | 0 <= j < |cs[1..]| ensures cs[1..][j].id != k { assert cs[1..][j] == cs[j + 1]; }
        }
        RestaurarConserva(r1.valor.bd, cs[1..], k);
      }
    }
  }

  /**
   * After a restore that did not throw, the LAST backup entry carrying a non-zero id is what
   * the table holds under that id, whatever row was stored there before.
   */
  lemma {:induction false} RestaurarSobrescribe(bd: BD, cs: seq<Contacto>, i: int)
    requires Valida(bd) && Restaurar(bd, cs).resultado.Exito?
    requires 0 <= i < |cs| && cs[i].id != 0 && NoNombra(cs[i + 1..], cs[i].id)
    ensures cs[i].id in Restaurar(bd, cs).bd.contactos && Restaurar(bd, cs).bd.contactos[cs[i].id] == cs[i]
    decreases |cs|
  {
    var r1 := ContactoDao.Insertar(bd, cs[0]);
    ContactoDao.InsertarPreservaValida(bd, cs[0]);
    if i == 0 {
      assert cs[1..] == cs[i + 1..];
      RestaurarConserva(r1.valor.bd, cs[1..], cs[0].id);
    } else {
      assert cs[1..][i - 1] == cs[i] && cs[1..][i - 1 + 1..] == cs[i + 1..];
      RestaurarSobrescribe(r1.valor.bd, cs[1..], i - 1);
    }
  }

  /**
   * A restore throws exactly when some backup entry names a category that is not stored;
   * the inserts leave the categories alone, so each entry is checked against the categories
   * stored before the restore began.
   */
  lemma {:induction false} RestaurarFalla(bd: BD, cs: seq<Contacto>)
    ensures Restaurar(bd, cs).resultado.Fallo? <==>
      exists i :: 0 <= i < |cs| && !ReferenciaValida(bd, cs[i].categoriaId)
    decreases |cs|
  {
    if cs != [] {
      var r1 := ContactoDao.Insertar(bd, cs[0]);
      if r1.Exito? {
        RestaurarFalla(r1.valor.bd, cs[1..]);
        if exists i :: 0 <= i < |cs| && !ReferenciaValida(bd, cs[i].categoriaId) {
          var i :| 0 <= i < |cs| && !ReferenciaValida(bd, cs[i].categoriaId);
          assert cs[1..][i - 1] == cs[i];
        }
        if exists i :: 0 <= i < |cs[1..]| && !ReferenciaValida(r1.valor.bd, cs[1..][i].categoriaId) {
          var i :| 0 <= i < |cs[1..]| && !ReferenciaValida(r1.valor.bd, cs[1..][i].categoriaId);
          assert cs[1..][i] == cs[i + 1];
        }
      }
    }
  }

  // ---------------------------------------------------------------- device import

  /** A row of the device's phone cursor: `DISPLAY_NAME` and `NUMBER`. */
  datatype FilaDispositivo = FilaDispositivo(nombre: string, numero: string)

  /** The device query: a null cursor (no rows), an open one, or a query that throws. */
  datatype Cursor = Nulo | Abierto(filas: seq<FilaDispositivo>) | Fallido

  /** The rows `cursor?.use { ... }` walks through. */
  function FilasDe(cursor: Cursor): seq<FilaDispositivo> {
    if cursor.Abierto? then cursor.filas else []
  }

  /** `getTodosComoLista().map { it.telefono }.toSet()`. */
  function TelefonosDe(s: seq<Contacto>): (r: set<string>)
    ensures forall t :: t in r <==> exists c :: c in s && c.telefono == t
  {
    set c | c in s :: c.telefono
  }

  /** The number with every `\s` character removed. */
  function Limpiar(numero: string): string {
    QuitarEspaciosRegex(numero)
  }

  /** The loop's test: the cleaned number is not blank and not among the snapshot's phones. */
  predicate SeConserva(existentes: set<string>, f: FilaDispositivo) {
    !EsBlanco(Limpiar(f.numero)) && Limpiar(f.numero) !in existentes
  }

  /** `Contacto(nombre = nombre, telefono = telefono, email = "", categoriaId = 1)`. */
  function ContactoImportado(f: FilaDispositivo): (r: Contacto)
    ensures SinGuardar(r) && r.nombre == f.nombre && r.telefono == Limpiar(f.numero)
    ensures r.email == Some("") && r.categoriaId == Some(1) && r.linkedin == "" && r.website == ""
  {
    Contacto(nombre := f.nombre, telefono := Limpiar(f.numero), email := Some(""), categoriaId := Some(1))
  }

  /**
   * `nuevosContactos` after the loop has read `filas`: the kept rows turned into contacts,
   * in cursor order. The snapshot `existentes` is not updated inside the loop.
   */
  function Nuevos(existentes: set<string>, filas: seq<FilaDispositivo>): (r: seq<Contacto>)
    ensures |r| <= |filas|
  {
    if filas == [] then []
    else
      var f := filas[|filas| - 1];
      Nuevos(existentes, filas[..|filas| - 1]) + (if SeConserva(existentes, f) then [ContactoImportado(f)] else [])
  }

  /** One more row read: `nuevosContactos` gains that row's contact exactly when the row is kept. */
  lemma NuevosPaso(existentes: set<string>, filas: seq<FilaDispositivo>, i: int)
    requires 0 <= i < |filas|
    ensures SeConserva(existentes, filas[i]) ==>
      Nuevos(existentes, filas[..i + 1]) == Nuevos(existentes, filas[..i]) + [ContactoImportado(filas[i])]
    ensures !SeConserva(existentes, filas[i]) ==> Nuevos(existentes, filas[..i + 1]) == Nuevos(existentes, filas[..i])
  {
    assert filas[..i + 1][..i] == filas[..i];
  }

  /** The contacts built from `filas`, one per row, in order. */
  function Convertir(filas: seq<FilaDispositivo>): (r: seq<Contacto>)
    ensures |r| == |filas| && forall i :: 0 <= i < |filas| ==> r[i] == ContactoImportado(filas[i])
  {
    seq(|filas|, i requires 0 <= i < |filas| => ContactoImportado(filas[i]))
  }

  /** Filtering `s + [x]` is filtering `s`, then `x` if it passes. */
  lemma {:induction false} FiltrarUltimo<T(!new)>(s: seq<T>, x: T, f: T -> bool)
    ensures Filtrar(s + [x], f) == Filtrar(s, f) + (if f(x) then [x] else [])
    decreases |s|
  {
    if s == [] {
      assert [] + [x] == [x] && [x][1..] == [];
    } else {
      assert (s + [x])[0] == s[0] && (s + [x])[1..] == s[1..] + [x];
      FiltrarUltimo(s[1..], x, f);
    }
  }

  /** The import's list is the device rows kept by the test, converted in cursor order. */
  lemma {:induction false} NuevosEsFiltrar(existentes: set<string>, filas: seq<FilaDispositivo>)
    ensures Nuevos(existentes, filas) == Convertir(Filtrar(filas, f => SeConserva(existentes, f)))
    decreases |filas|
  {
    if filas != [] {
      var ini, f := filas[..|filas| - 1], filas[|filas| - 1];
      assert filas == ini + [f];
      NuevosEsFiltrar(existentes, ini);
      FiltrarUltimo(ini, f, f => SeConserva(existentes, f));
    }
  }

  /** A contact is in the converted list exactly when it converts from one of the rows. */
  lemma EnConvertir(k: seq<FilaDispositivo>, c: Contacto)
    ensures c in Convertir(k) <==> exists f :: f in k && c == ContactoImportado(f)
  {
    if c in Convertir(k) {
      var j :| 0 <= j < |k| && Convertir(k)[j] == c;
      assert k[j] in k;
    }
    if exists f :: f in k && c == ContactoImportado(f) {
      var f :| f in k && c == ContactoImportado(f);
      var j :| 0 <= j < |k| && k[j] == f;
      assert Convertir(k)[j] == c;
    }
  }

  /**
   * A contact is imported exactly when some device row passes the test and converts to it;
   * every imported contact is unsaved, has a phone with no `\s` character that is not blank
   * and not in the snapshot, and is in category 1.
   */
  lemma NuevosSii(existentes: set<string>, filas: seq<FilaDispositivo>, c: Contacto)
    ensures c in Nuevos(existentes, filas) <==>
      exists f :: f in filas && SeConserva(existentes, f) && c == ContactoImportado(f)
    ensures c in Nuevos(existentes, filas) ==>
      SinGuardar(c) && c.categoriaId == Some(1) && !EsBlanco(c.telefono) && c.telefono !in existentes
      && (forall k :: 0 <= k < |c.telefono| ==> !EsEspacioRegex(c.telefono[k]))
  {
    NuevosEsFiltrar(existentes, filas);
    EnConvertir(Filtrar(filas, f => SeConserva(existentes, f)), c);
  }

  /**
   * Two device rows with the same new phone are both imported: the snapshot is not
   * updated when a row is kept.
   */
  lemma DuplicadosEnElLote(existentes: set<string>, f: FilaDispositivo, g: FilaDispositivo)
    requires SeConserva(existentes, f) && Limpiar(g.numero) == Limpiar(f.numero)
    ensures Nuevos(existentes, [f, g]) == [ContactoImportado(f), ContactoImportado(g)]
  {
    assert [f, g][..1] == [f] && [f][..0] == [];
  }

  /**
   * `importarDesdeDispositivo`: snapshot the stored phones, walk the cursor, then write the
   * kept rows with one `insertarVarios` call, or make no write at all when none was kept.
   */
  function Importar(bd: BD, cursor: Cursor): (r: Tras)
  {
    if cursor.Fallido? then Tras(bd, Fallo(LecturaDispositivo))
    else
      var nuevos := Nuevos(TelefonosDe(ContactoDao.TodosComoLista(bd)), FilasDe(cursor));
      if nuevos == [] then Tras(bd, Exito(()))
      else
        match ContactoDao.InsertarVarios(bd, nuevos)
        case Fallo(e) => Tras(bd, Fallo(e))
        case Exito(b) => Tras(b, Exito(()))
  }

  /**
   * The import never changes or removes a stored contact, touches no other table, and
   * leaves the database as it was when it throws.
   */
  lemma ImportarConserva(bd: BD, cursor: Cursor)
    requires Valida(bd)
    ensures var r := Importar(bd, cursor);
      && Valida(r.bd) && ContactoDao.FilasConservadas(bd.contactos, r.bd.contactos)
      && ContactoDao.SoloContactos(bd, r.bd)
      && (r.resultado.Fallo? ==> r.bd == bd)
  {
    if !cursor.Fallido? {
      var nuevos := Nuevos(TelefonosDe(ContactoDao.TodosComoLista(bd)), FilasDe(cursor));
      ContactoDao.InsertarVariosConserva(bd, nuevos);
    }
  }

  /** Every contact of the batch is unsaved and refers to category 1. */
  predicate LoteDeImportacion(nuevos: seq<Contacto>) {
    forall i :: 0 <= i < |nuevos| ==> SinGuardar(nuevos[i]) && nuevos[i].categoriaId == Some(1)
  }

  /** Every contact the import builds is unsaved and refers to category 1. */
  lemma NuevosSinGuardarCategoria1(existentes: set<string>, filas: seq<FilaDispositivo>)
    ensures LoteDeImportacion(Nuevos(existentes, filas))
  {
    var nuevos := Nuevos(existentes, filas);
    forall i | 0 <= i < |nuevos| ensures SinGuardar(nuevos[i]) && nuevos[i].categoriaId == Some(1) {
      NuevosSii(existentes, filas, nuevos[i]);
    }
  }

  /** A non-empty batch of unsaved contacts in category 1 fails exactly when category 1 is not stored. */
  lemma LoteCategoria1(bd: BD, nuevos: seq<Contacto>)
    requires Valida(bd) && nuevos != [] && LoteDeImportacion(nuevos)
    ensures ContactoDao.InsertarVarios(bd, nuevos).Fallo? <==> 1 !in bd.categorias
  {
    ContactoDao.InsertarVariosFalla(bd, nuevos);
    if 1 !in bd.categorias {
      assert !ReferenciaValida(bd, nuevos[0].categoriaId);
    }
  }

  /** With an open cursor the import throws exactly when something was kept and category 1 is not stored. */
  lemma ImportarFalla(bd: BD, filas: seq<FilaDispositivo>)
    requires Valida(bd)
    ensures Importar(bd, Abierto(filas)).resultado.Fallo? <==>
      Nuevos(TelefonosDe(ContactoDao.TodosComoLista(bd)), filas) != [] && 1 !in bd.categorias
  {
    var ex := TelefonosDe(ContactoDao.TodosComoLista(bd));
    var nuevos := Nuevos(ex, filas);
    if nuevos != [] {
      NuevosSinGuardarCategoria1(ex, filas);
      LoteCategoria1(bd, nuevos);
    }
  }

  /**
   * When the import does not throw, the kept rows become new contacts with the ids that
   * follow the largest id ever used, in cursor order, and no other key appears.
   */
  lemma ImportarNuevos(bd: BD, filas: seq<FilaDispositivo>)
    requires Valida(bd) && Importar(bd, Abierto(filas)).resultado.Exito?
    ensures var nuevos := Nuevos(TelefonosDe(ContactoDao.TodosComoLista(bd)), filas);
      var n := Importar(bd, Abierto(filas)).bd;
      && n.secContactos == bd.secContactos + |nuevos|
      && (forall k :: k in n.contactos <==> k in bd.contactos || bd.secContactos < k <= bd.secContactos + |nuevos|)
      && (forall i :: 0 <= i < |nuevos| ==>
            n.contactos[bd.secContactos + 1 + i] == nuevos[i].(id := bd.secContactos + 1 + i))
  {
    var ex := TelefonosDe(ContactoDao.TodosComoLista(bd));
    var nuevos := Nuevos(ex, filas);
    if nuevos != [] {
      ImportarFalla(bd, filas);
      NuevosSinGuardarCategoria1(ex, filas);
      assert forall i :: 0 <= i < |nuevos| ==> SinGuardar(nuevos[i]) && nuevos[i].categoriaId == Some(1);
      assert ContactoDao.NuevosConReferencia(bd, nuevos);
      ContactoDao.InsertarVariosNuevos(bd, nuevos);
    }
  }

  // ---------------------------------------------------------------- groups

  /** `actualizarGruposDeContacto(c, gs)`: one `addContactoAGrupo(c, g)` per requested group. */
  function AsociarGrupos(bd: BD, c: int, gs: seq<int>): (r: BD)
    ensures forall e :: e in r.enlaces <==> e in bd.enlaces || (e.contactoId == c && e.grupoId in gs)
    ensures bd.enlaces <= r.enlaces
    ensures r.(enlaces := bd.enlaces) == bd
  {
    bd.(enlaces := bd.enlaces + set g | g in gs :: Enlace(c, g))
  }

  /** Associating the same groups twice is associating them once, and the order of the groups does not matter. */
  lemma AsociarGruposIdempotente(bd: BD, c: int, gs: seq<int>, hs: seq<int>)
    requires forall g :: g in gs <==> g in hs
    ensures AsociarGrupos(AsociarGrupos(bd, c, gs), c, gs) == AsociarGrupos(bd, c, gs)
    ensures AsociarGrupos(bd, c, gs) == AsociarGrupos(bd, c, hs)
  {
    assert AsociarGrupos(AsociarGrupos(bd, c, gs), c, gs).enlaces == AsociarGrupos(bd, c, gs).enlaces;
    assert AsociarGrupos(bd, c, gs).enlaces == AsociarGrupos(bd, c, hs).enlaces;
  }

  /** The method calls `addContactoAGrupo` once per element of `gs`, in order. */
  function LlamadasAsociar(c: int, gs: seq<int>): (r: seq<Escritura>)
    ensures |r| == |gs| && forall j :: 0 <= j < |gs| ==> r[j] == AddContactoAGrupo(Enlace(c, gs[j]))
  {
    seq(|gs|, j requires 0 <= j < |gs| => AddContactoAGrupo(Enlace(c, gs[j])))
  }

  // ---------------------------------------------------------------- the repository

  class ContactosRepository {
    const db: ContactosDatabase

    constructor (db: ContactosDatabase)
      ensures this.db == db
    {
      this.db := db;
    }

    /** `todosLosContactos`. */
    function TodosLosContactos(): seq<Contacto>
      reads db
    {
      ContactoDao.TodosOrdenados(db.Estado())
    }

    /** `buscarContactos(query)`. */
    function BuscarContactos(q: string): seq<Contacto>
      reads db
    {
      ContactoDao.Buscar(db.Estado(), PatronBusqueda(q))
    }

    /** `todasLasCategorias`. */
    function TodasLasCategorias(): seq<Categoria>
      reads db
    {
      CategoriaDao.TodasOrdenadas(db.Estado())
    }

    /** `todosLosGrupos`. */
    function TodosLosGrupos(): seq<Grupo>
      reads db
    {
      GrupoDao.TodosLosGrupos(db.Estado())
    }

    /** `obtenerContactosParaBackup`: every stored row, unsorted. */
    function ObtenerContactosParaBackup(): seq<Contacto>
      reads db
    {
      ContactoDao.TodosComoLista(db.Estado())
    }

    /** `getContactoById`. */
    function GetContactoById(id: int): Option<Contacto>
      reads db
    {
      ContactoDao.PorId(db.Estado(), id)
    }

    /** `getGruposDeUnContacto`. */
    function GetGruposDeUnContacto(id: int): Option<ContactoConGrupos>
      reads db
    {
      GrupoDao.GruposDeUnContacto(db.Estado(), id)
    }

    /** `insertarContacto`: delegates to `insert` and returns its row id. */
    method InsertarContacto(c: Contacto) returns (r: Resultado<int>)
      requires db.Valid()
      modifies db
      ensures db.Valid()
      ensures db.escrituras == old(db.escrituras) + [InsertContacto(c)]
      ensures match ContactoDao.Insertar(old(db.Estado()), c)
        case Fallo(e) => r == Fallo(e) && db.Estado() == old(db.Estado())
        case Exito(ins) => r == Exito(ins.id) && db.Estado() == ins.bd
    {
      r := db.Insert(c);
    }

    /** `actualizarContacto`: delegates to `update`. */
    method ActualizarContacto(c: Contacto) returns (r: Resultado<()>)
      requires db.Valid()
      modifies db
      ensures db.Valid()
      ensures db.escrituras == old(db.escrituras) + [UpdateContacto(c)]
      ensures match ContactoDao.Actualizar(old(db.Estado()), c)
        case Fallo(e) => r == Fallo(e) && db.Estado() == old(db.Estado())
        case Exito(b) => r == Exito(()) && db.Estado() == b
    {
      r := db.Update(c);
    }

    /** `eliminarContacto`: delegates to `delete`. */
    method EliminarContacto(c: Contacto)
      requires db.Valid()
      modifies db
      ensures db.Valid()
      ensures db.escrituras == old(db.escrituras) + [DeleteContacto(c)]
      ensures db.Estado() == ContactoDao.Eliminar(old(db.Estado()), c)
    {
      db.Delete(c);
    }

    /** `insertarCategoria`: delegates to the category `insert`. */
    method InsertarCategoria(k: Categoria)
      requires db.Valid()
      modifies db
      ensures db.Valid()
      ensures db.escrituras == old(db.escrituras) + [InsertCategoria(k)]
      ensures db.Estado() == CategoriaDao.Insertar(old(db.Estado()), k)
    {
      db.InsertCategoria(k);
    }

    /** `crearGrupo`: delegates to `crearGrupo`. */
    method CrearGrupo(g: Grupo)
      requires db.Valid()
      modifies db
      ensures db.Valid()
      ensures db.escrituras == old(db.escrituras) + [Escritura.CrearGrupo(g)]
      ensures db.Estado() == GrupoDao.CrearGrupo(old(db.Estado()), g)
    {
      db.CrearGrupo(g);
    }

    /** `restaurarContactos`: `forEach { insert(it) }`. */
    method RestaurarContactos(cs: seq<Contacto>) returns (r: Resultado<()>)
      requires db.Valid()
      modifies db
      ensures db.Valid()
      ensures r == Restaurar(old(db.Estado()), cs).resultado
      ensures db.Estado() == Restaurar(old(db.Estado()), cs).bd
      ensures |old(db.escrituras)| <= |db.escrituras| && db.escrituras[..|old(db.escrituras)|] == old(db.escrituras)
      ensures forall w :: w in db.escrituras[|old(db.escrituras)|..] ==> w.InsertContacto? && w.c in cs
      ensures r.Exito? ==> db.escrituras == old(db.escrituras) + seq(|cs|, j requires 0 <= j < |cs| => InsertContacto(cs[j]))
    {
      var i := 0;
      while i < |cs|
        invariant 0 <= i <= |cs| && db.Valid()
        invariant Restaurar(old(db.Estado()), cs) == Restaurar(db.Estado(), cs[i..])
        invariant db.escrituras == old(db.escrituras) + seq(i, j requires 0 <= j < i => InsertContacto(cs[j]))
      {
        assert cs[i..][0] == cs[i] && cs[i..][1..] == cs[i + 1..];
        var ok := db.Insert(cs[i]);
        if ok.Fallo? {
          assert db.escrituras[|old(db.escrituras)|..] == seq(i + 1, j requires 0 <= j < i + 1 => InsertContacto(cs[j]));
          return Fallo(ok.error);
        }
        i := i + 1;
      }
      assert cs[i..] == [];
      assert db.escrituras[|old(db.escrituras)|..] == seq(i, j requires 0 <= j < i => InsertContacto(cs[j]));
      r := Exito(());
    }

    /**
     * `importarDesdeDispositivo`: the stored phones are read once, before the cursor; the
     * loop only appends to the local list.
     */
    method ImportarDesdeDispositivo(cursor: Cursor) returns (r: Resultado<()>)
      requires db.Valid()
      modifies db
      ensures db.Valid()
      ensures r == Importar(old(db.Estado()), cursor).resultado
      ensures db.Estado() == Importar(old(db.Estado()), cursor).bd
      ensures var nuevos := Nuevos(TelefonosDe(ContactoDao.TodosComoLista(old(db.Estado()))), FilasDe(cursor));
        db.escrituras == old(db.escrituras) + (if cursor.Fallido? || nuevos == [] then [] else [InsertarVarios(nuevos)])
    {
      ghost var antes := db.Estado();
      var existentes := TelefonosDe(ContactoDao.TodosComoLista(db.Estado()));
      if cursor.Fallido? {
        return Fallo(LecturaDispositivo);
      }
      var filas := FilasDe(cursor);
      var nuevos: seq<Contacto> := [];
      var i := 0;
      while i < |filas|
        invariant 0 <= i <= |filas|
        invariant nuevos == Nuevos(existentes, filas[..i])
        invariant db.Estado() == antes && db.escrituras == old(db.escrituras)
      {
        NuevosPaso(existentes, filas, i);
        var telefono := Limpiar(filas[i].numero);
        if !EsBlanco(telefono) && telefono !in existentes {
          assert SeConserva(existentes, filas[i]);
          nuevos := nuevos + [Contacto(nombre := filas[i].nombre, telefono := telefono, email := Some(""), categoriaId := Some(1))];
        } else {
          assert !SeConserva(existentes, filas[i]);
        }
        i := i + 1;
      }
      assert filas[..i] == filas;
      if nuevos != [] {
        r := db.InsertarVarios(nuevos);
      } else {
        r := Exito(());
      }
    }

    /** `actualizarGruposDeContacto`: the call that would delete old links is commented out, so links are only added. */
    method ActualizarGruposDeContacto(c: int, gs: seq<int>)
      requires db.Valid()
      modifies db
      ensures db.Valid()
      ensures db.Estado() == AsociarGrupos(old(db.Estado()), c, gs)
      ensures db.escrituras == old(db.escrituras) + LlamadasAsociar(c, gs)
    {
      var i := 0;
      while i < |gs|
        invariant 0 <= i <= |gs| && db.Valid()
        invariant db.Estado() == AsociarGrupos(old(db.Estado()), c, gs[..i])
        invariant db.escrituras == old(db.escrituras) + LlamadasAsociar(c, gs[..i])
      {
        assert gs[..i + 1] == gs[..i] + [gs[i]];
        assert LlamadasAsociar(c, gs[..i + 1]) == LlamadasAsociar(c, gs[..i]) + [AddContactoAGrupo(Enlace(c, gs[i]))];
        db.AddContactoAGrupo(Enlace(c, gs[i]));
        i := i + 1;
      }
      assert gs[..i] == gs;
    }
  }
}
