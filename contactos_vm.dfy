/**
 * `ContactosViewModel`: the main list. The list shown is every contact when the query is
 * empty and the search result otherwise; the import status moves VACIO, CARGANDO, then
 * EXITO or ERROR, and back to VACIO when the screen resets it.
 */
module VistaContactos {
  import opened Resultados
  import opened Modelo
  import opened Tablas
  import opened Sql
  import ContactoDao
  import opened BaseDeDatos
  import opened Repositorio

  datatype EstadoImportacion = VACIO | CARGANDO | EXITO | ERROR

  // ---------------------------------------------------------------- the query switch

  /** The `switchMap` on the query: all contacts for "", the search for anything else, untrimmed. */
  function Lista(bd: BD, q: string): seq<Contacto> {
    if q == "" then ContactoDao.TodosOrdenados(bd) else ContactoDao.Buscar(bd, PatronBusqueda(q))
  }

  /** Whatever the query, the list holds only stored contacts and is sorted by name. */
  lemma ListaOrdenada(bd: BD, q: string)
    ensures OrdenadoPor(Lista(bd, q), NombreDe)
    ensures forall x :: x in Lista(bd, q) ==> x in bd.contactos.Values
  {
  }

  /** The empty query shows every stored contact, and only those. */
  lemma ListaSinConsulta(bd: BD)
    ensures forall x :: x in Lista(bd, "") <==> x in bd.contactos.Values
    ensures |Lista(bd, "")| == |bd.contactos|
  {
  }

  /**
   * For a query without LIKE wildcards, empty or not, the list holds exactly the stored
   * contacts whose name or phone contains the query, ignoring ASCII case: the empty query
   * is contained in every text, so the switch agrees with the search it skips.
   */
  lemma ListaSii(bd: BD, q: string, x: Contacto)
    requires SinComodines(q)
    ensures x in Lista(bd, q) <==>
      x in bd.contactos.Values && (ContieneSinMayusculas(x.nombre, q) || ContieneSinMayusculas(x.telefono, q))
  {
    if q == "" {
      assert ApareceEn(x.nombre, q, 0);
    } else {
      BuscarPorSubcadena(bd, q, x);
    }
  }

  /** A text contains the one-space query exactly when it has a space in it. */
  lemma ContieneEspacio(s: string)
    ensures ContieneSinMayusculas(s, " ") <==> ' ' in s
  {
    if ' ' in s {
      var i :| 0 <= i < |s| && s[i] == ' ';
      assert ApareceEn(s, " ", i);
    }
    if ContieneSinMayusculas(s, " ") {
      var i :| 0 <= i && ApareceEn(s, " ", i);
      assert s[i..i + 1][0] == s[i];
    }
  }

  /** The query is not trimmed: " " is searched, and shows only the contacts with a space in their name or phone. */
  lemma ListaEspacio(bd: BD, x: Contacto)
    ensures x in Lista(bd, " ") <==> x in bd.contactos.Values && (' ' in x.nombre || ' ' in x.telefono)
  {
    ListaSii(bd, " ", x);
    ContieneEspacio(x.nombre);
    ContieneEspacio(x.telefono);
  }

  // ---------------------------------------------------------------- the import status

  /**
   * One posted status after another: an import may start from any status, it ends in
   * EXITO or ERROR only right after CARGANDO, and a reset is always allowed. This is the
   * history of imports that run one at a time; overlapping imports are not modelled.
   */
  predicate Transicion(a: EstadoImportacion, b: EstadoImportacion) {
    b == CARGANDO || b == VACIO || (a == CARGANDO && (b == EXITO || b == ERROR))
  }

  /** The statuses posted so far: VACIO first, each step a transition. */
  predicate TrazaValida(h: seq<EstadoImportacion>) {
    |h| >= 1 && h[0] == VACIO && forall i :: 0 < i < |h| ==> Transicion(h[i - 1], h[i])
  }

  /** The status an import ends in: EXITO when the repository call returned, ERROR when it threw. */
  function Desenlace(r: Resultado<()>): (e: EstadoImportacion)
    ensures e == EXITO <==> r.Exito?
    ensures e == ERROR <==> r.Fallo?
  {
    if r.Exito? then EXITO else ERROR
  }

  /** An import appends CARGANDO and its outcome, and keeps the trace well formed. */
  lemma {:induction false} TrazaImportar(h: seq<EstadoImportacion>, r: Resultado<()>)
    requires TrazaValida(h)
    ensures TrazaValida(h + [CARGANDO, Desenlace(r)])
  {
    var h2 := h + [CARGANDO, Desenlace(r)];
    forall i | 0 < i < |h2| ensures Transicion(h2[i - 1], h2[i]) {
      if i < |h| {
        assert h2[i - 1] == h[i - 1] && h2[i] == h[i];
      }
    }
  }

  /** A reset appends VACIO and keeps the trace well formed. */
  lemma {:induction false} TrazaResetear(h: seq<EstadoImportacion>)
    requires TrazaValida(h)
    ensures TrazaValida(h + [VACIO])
  {
    var h2 := h + [VACIO];
    forall i | 0 < i < |h2| ensures Transicion(h2[i - 1], h2[i]) {
      if i < |h| {
        assert h2[i - 1] == h[i - 1] && h2[i] == h[i];
      }
    }
  }

  /** In a well-formed trace every EXITO or ERROR comes right after a CARGANDO. */
  lemma DesenlaceTrasCargando(h: seq<EstadoImportacion>, i: int)
    requires TrazaValida(h) && 0 <= i < |h| && (h[i] == EXITO || h[i] == ERROR)
    ensures i > 0 && h[i - 1] == CARGANDO
  {
    if i > 0 {
      assert Transicion(h[i - 1], h[i]);
    }
  }

  // ---------------------------------------------------------------- the view-model

  class ContactosViewModel {
    const repo: ContactosRepository
    /** The value of `_searchQuery`. */
    var consulta: string
    /** The value of `_estadoImportacion`. */
    var estadoImportacion: EstadoImportacion
    /** Every value `_estadoImportacion` has held, in order. */
    ghost var historial: seq<EstadoImportacion>

    ghost predicate Valid()
      reads this
    {
      TrazaValida(historial) && historial[|historial| - 1] == estadoImportacion
    }

    constructor (repo: ContactosRepository)
      ensures this.repo == repo && consulta == "" && estadoImportacion == VACIO
      ensures Valid() && historial == [VACIO]
    {
      this.repo := repo;
      consulta := "";
      estadoImportacion := VACIO;
      historial := [VACIO];
    }

    /** The current value of `contactos`. */
    function Contactos(): seq<Contacto>
      reads this, repo, repo.db
    {
      Lista(repo.db.Estado(), consulta)
    }

    /** `buscarContacto`: replaces the query, which changes what `contactos` shows. */
    method BuscarContacto(q: string)
      modifies this
      ensures consulta == q && Contactos() == Lista(repo.db.Estado(), q)
      ensures estadoImportacion == old(estadoImportacion) && historial == old(historial)
    {
      consulta := q;
    }

    /** `eliminarContacto`: exactly one repository delete of that contact. */
    method EliminarContacto(c: Contacto)
      requires repo.db.Valid()
      modifies repo.db
      ensures repo.db.Valid()
      ensures repo.db.escrituras == old(repo.db.escrituras) + [DeleteContacto(c)]
      ensures repo.db.Estado() == ContactoDao.Eliminar(old(repo.db.Estado()), c)
    {
      repo.EliminarContacto(c);
    }

    /** `getContactosParaExportar`: the list currently shown, filtered by the query, not every stored contact. */
    method GetContactosParaExportar() returns (r: Option<seq<Contacto>>)
      ensures r == Some(Lista(repo.db.Estado(), consulta))
    {
      r := Some(Contactos());
    }

    /** `importarContactosDelDispositivo`: CARGANDO, the repository import, then EXITO or ERROR. */
    method ImportarContactosDelDispositivo(cursor: Cursor)
      requires Valid() && repo.db.Valid()
      modifies this, repo.db
      ensures Valid() && repo.db.Valid() && consulta == old(consulta)
      ensures repo.db.Estado() == Importar(old(repo.db.Estado()), cursor).bd
      ensures estadoImportacion == Desenlace(Importar(old(repo.db.Estado()), cursor).resultado)
      ensures historial == old(historial) + [CARGANDO, estadoImportacion]
    {
      estadoImportacion := CARGANDO;
      historial := historial + [CARGANDO];
      var r := repo.ImportarDesdeDispositivo(cursor);
      if r.Exito? {
        estadoImportacion := EXITO;
      } else {
        estadoImportacion := ERROR;
      }
      historial := historial + [estadoImportacion];
      TrazaImportar(old(historial), r);
      assert historial == old(historial) + [CARGANDO, Desenlace(r)];
    }

    /** `resetearEstadoImportacion`: VACIO from any status. */
    method ResetearEstadoImportacion()
      requires Valid()
      modifies this
      ensures Valid() && estadoImportacion == VACIO && historial == old(historial) + [VACIO]
      ensures consulta == old(consulta)
    {
      TrazaResetear(historial);
      estadoImportacion := VACIO;
      historial := historial + [VACIO];
    }
  }
}
