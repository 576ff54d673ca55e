/**
 * `AgregarContactoViewModel`: the save flow of the add/edit screen. A contact with id 0 is
 * inserted and its new id linked to the chosen groups; any other contact is updated and its
 * own id linked. The outcome is posted to `estadoGuardado` once every call has returned.
 */
module EdicionContacto {
  import opened Resultados
  import opened Modelo
  import opened Tablas
  import opened Texto
  import ContactoDao
  import GrupoDao
  import opened BaseDeDatos
  import opened Repositorio

  // ---------------------------------------------------------------- the save flow on values

  /** The id the groups are linked to: the generated one for a new contact, its own otherwise. */
  function IdGuardado(bd: BD, c: Contacto): (r: int)
    ensures c.id == 0 ==> r == bd.secContactos + 1
    ensures c.id != 0 ==> r == c.id
  {
    IdAsignado(c.id, bd.secContactos)
  }

  /**
   * `guardarContactoYAsociarGrupos` on the database value: the write, then, if it did not
   * throw, the group links. The association cannot throw (the link table has no foreign key).
   */
  function GuardarYAsociar(bd: BD, c: Contacto, gs: seq<int>): Tras {
    if c.id == 0 then
      match ContactoDao.Insertar(bd, c)
      case Fallo(e) => Tras(bd, Fallo(e))
      case Exito(ins) => Tras(AsociarGrupos(ins.bd, ins.id, gs), Exito(()))
    else
      match ContactoDao.Actualizar(bd, c)
      case Fallo(e) => Tras(bd, Fallo(e))
      case Exito(b) => Tras(AsociarGrupos(b, c.id, gs), Exito(()))
  }

  /** The DAO calls the save makes: one write, then one link per group if the write went through. */
  function LlamadasGuardar(bd: BD, c: Contacto, gs: seq<int>): (r: seq<Escritura>)
    ensures |r| >= 1 && r[0] == (if c.id == 0 then InsertContacto(c) else UpdateContacto(c))
    ensures forall w :: w in r[1..] ==> w.AddContactoAGrupo?
  {
    var escritura := if c.id == 0 then InsertContacto(c) else UpdateContacto(c);
    [escritura] + (if GuardarYAsociar(bd, c, gs).resultado.Exito? then LlamadasAsociar(IdGuardado(bd, c), gs) else [])
  }

  /** Proof step only (no source counterpart): sequence append is associative, used to split the call-log ensures below. */
  lemma Asociativa<T>(a: seq<T>, b: seq<T>, c: seq<T>)
    ensures a + b + c == a + (b + c)
  {
  }

  /** The save case by case, in terms of the DAO write it starts with: what it returns and which calls it makes. */
  lemma GuardarPorCasos(bd: BD, c: Contacto, gs: seq<int>)
    ensures c.id == 0 ==> match ContactoDao.Insertar(bd, c)
      case Fallo(e) => GuardarYAsociar(bd, c, gs) == Tras(bd, Fallo(e)) && LlamadasGuardar(bd, c, gs) == [InsertContacto(c)]
      case Exito(ins) =>
        && ins.id == IdGuardado(bd, c)
        && GuardarYAsociar(bd, c, gs) == Tras(AsociarGrupos(ins.bd, ins.id, gs), Exito(()))
        && LlamadasGuardar(bd, c, gs) == [InsertContacto(c)] + LlamadasAsociar(ins.id, gs)
    ensures c.id != 0 ==> match ContactoDao.Actualizar(bd, c)
      case Fallo(e) => GuardarYAsociar(bd, c, gs) == Tras(bd, Fallo(e)) && LlamadasGuardar(bd, c, gs) == [UpdateContacto(c)]
      case Exito(b) =>
        && GuardarYAsociar(bd, c, gs) == Tras(AsociarGrupos(b, c.id, gs), Exito(()))
        && LlamadasGuardar(bd, c, gs) == [UpdateContacto(c)] + LlamadasAsociar(c.id, gs)
  {
  }

  /**
   * Saving keeps the invariant, only ever adds group links, and leaves the database as it
   * was when it throws.
   */
  lemma GuardarSoloAgregaEnlaces(bd: BD, c: Contacto, gs: seq<int>)
    requires Valida(bd)
    ensures var r := GuardarYAsociar(bd, c, gs);
      && Valida(r.bd) && bd.enlaces <= r.bd.enlaces
      && (r.resultado.Fallo? ==> r.bd == bd)
  {
    if c.id == 0 {
      ContactoDao.InsertarPreservaValida(bd, c);
      match ContactoDao.Insertar(bd, c)
      case Fallo(e) =>
      case Exito(ins) =>
        assert Valida(AsociarGrupos(ins.bd, ins.id, gs));
    } else {
      ContactoDao.ActualizarPreservaValida(bd, c);
      match ContactoDao.Actualizar(bd, c)
      case Fallo(e) =>
      case Exito(b) =>
        assert Valida(AsociarGrupos(b, c.id, gs));
    }
  }

  /**
   * The save throws exactly when the write stores a row whose category reference names no
   * stored category: an update of a missing id writes nothing, so it cannot throw.
   */
  lemma GuardarFalla(bd: BD, c: Contacto, gs: seq<int>)
    ensures GuardarYAsociar(bd, c, gs).resultado.Fallo? <==>
      (c.id == 0 || c.id in bd.contactos) && !ReferenciaValida(bd, c.categoriaId)
    ensures GuardarYAsociar(bd, c, gs).resultado.Fallo? ==> LlamadasGuardar(bd, c, gs) == [LlamadasGuardar(bd, c, gs)[0]]
  {
  }

  /**
   * A new contact is stored under the id after the largest ever used, which no row had, and
   * the links gained are exactly that id with each requested group.
   */
  lemma GuardarNuevo(bd: BD, c: Contacto, gs: seq<int>)
    requires Valida(bd) && c.id == 0 && ReferenciaValida(bd, c.categoriaId)
    ensures var r := GuardarYAsociar(bd, c, gs); var id := bd.secContactos + 1;
      && r.resultado.Exito? && id !in bd.contactos
      && r.bd.contactos == bd.contactos[id := c.(id := id)]
      && (forall e :: e in r.bd.enlaces <==> e in bd.enlaces || (e.contactoId == id && e.grupoId in gs))
    ensures LlamadasGuardar(bd, c, gs) == [InsertContacto(c)] + LlamadasAsociar(bd.secContactos + 1, gs)
  {
    IdGeneradoEsNuevo(bd.contactos, bd.secContactos);
    var ins := ContactoDao.Insertar(bd, c).valor;
    assert ins.bd.contactos == bd.contactos[ins.id := c.(id := ins.id)];
  }

  /**
   * A stored contact is overwritten in place and keeps its id; a contact whose id is not
   * stored is not written at all, yet its id is still linked to the groups.
   */
  lemma GuardarExistente(bd: BD, c: Contacto, gs: seq<int>)
    requires c.id != 0 && (c.id in bd.contactos ==> ReferenciaValida(bd, c.categoriaId))
    ensures var r := GuardarYAsociar(bd, c, gs);
      && r.resultado.Exito?
      && r.bd.contactos == (if c.id in bd.contactos then bd.contactos[c.id := c] else bd.contactos)
      && (forall e :: e in r.bd.enlaces <==> e in bd.enlaces || (e.contactoId == c.id && e.grupoId in gs))
    ensures LlamadasGuardar(bd, c, gs) == [UpdateContacto(c)] + LlamadasAsociar(c.id, gs)
  {
    var b := ContactoDao.Actualizar(bd, c).valor;
    if c.id in bd.contactos {
      assert b.contactos == bd.contactos[c.id := c];
    }
  }

  /** `crearNuevoGrupo` on the database value: a group with id 0 for a name that is not blank. */
  function GrupoNuevo(bd: BD, nombre: string): (r: BD)
    ensures EsBlanco(nombre) ==> r == bd
  {
    if !EsBlanco(nombre) then GrupoDao.CrearGrupo(bd, Grupo(nombre := nombre)) else bd
  }

  /** A name that is not blank adds exactly one group, with the next id and that name; nothing else changes. */
  lemma CrearNuevoGrupoAgrega(bd: BD, nombre: string)
    requires Valida(bd) && !EsBlanco(nombre)
    ensures var r := GrupoNuevo(bd, nombre); var id := bd.secGrupos + 1;
      && id !in bd.grupos && r.grupos == bd.grupos[id := Grupo(id, nombre)]
      && r.secGrupos == id && Valida(r)
      && r.(grupos := bd.grupos, secGrupos := bd.secGrupos) == bd
  {
    IdGeneradoEsNuevo(bd.grupos, bd.secGrupos);
    GrupoDao.EscriturasPreservanValida(bd, Grupo(nombre := nombre), Enlace(0, 0), 0);
    var r := GrupoNuevo(bd, nombre);
    assert r.grupos == bd.grupos[bd.secGrupos + 1 := Grupo(bd.secGrupos + 1, nombre)];
  }

  // ---------------------------------------------------------------- the view-model

  class AgregarContactoViewModel {
    const repo: ContactosRepository
    /** The last value posted to `estadoGuardado`; `None` before the first save. */
    var estadoGuardado: Option<Resultado<()>>
    /** The contact whose groups `gruposDelContacto` observes; `None` for the initial empty `MutableLiveData`. */
    var gruposDelContacto: Option<int>

    constructor (repo: ContactosRepository)
      ensures this.repo == repo && estadoGuardado == None && gruposDelContacto == None
    {
      this.repo := repo;
      estadoGuardado := None;
      gruposDelContacto := None;
    }

    /** `todosLosGrupos`. */
    function TodosLosGrupos(): seq<Grupo>
      reads this, repo, repo.db
    {
      repo.TodosLosGrupos()
    }

    /** `todasLasCategorias`. */
    function TodasLasCategorias(): seq<Categoria>
      reads this, repo, repo.db
    {
      repo.TodasLasCategorias()
    }

    /** The current value of `gruposDelContacto`. */
    function ValorGruposDelContacto(): Option<ContactoConGrupos>
      reads this, repo, repo.db
    {
      match gruposDelContacto
      case None => None
      case Some(id) => repo.GetGruposDeUnContacto(id)
    }

    /** `insertarContacto`: one insert, then success, or the insert's failure. */
    method InsertarContacto(c: Contacto)
      requires repo.db.Valid()
      modifies this, repo.db
      ensures repo.db.Valid() && gruposDelContacto == old(gruposDelContacto)
      ensures repo.db.escrituras == old(repo.db.escrituras) + [InsertContacto(c)]
      ensures match ContactoDao.Insertar(old(repo.db.Estado()), c)
        case Fallo(e) => estadoGuardado == Some(Fallo(e)) && repo.db.Estado() == old(repo.db.Estado())
        case Exito(ins) => estadoGuardado == Some(Exito(())) && repo.db.Estado() == ins.bd
    {
      var r := repo.InsertarContacto(c);
      if r.Fallo? {
        estadoGuardado := Some(Fallo(r.error));
      } else {
        estadoGuardado := Some(Exito(()));
      }
    }

    /** `actualizarContacto`: one update, then success, or the update's failure. */
    method ActualizarContacto(c: Contacto)
      requires repo.db.Valid()
      modifies this, repo.db
      ensures repo.db.Valid() && gruposDelContacto == old(gruposDelContacto)
      ensures repo.db.escrituras == old(repo.db.escrituras) + [UpdateContacto(c)]
      ensures match ContactoDao.Actualizar(old(repo.db.Estado()), c)
        case Fallo(e) => estadoGuardado == Some(Fallo(e)) && repo.db.Estado() == old(repo.db.Estado())
        case Exito(b) => estadoGuardado == Some(Exito(())) && repo.db.Estado() == b
    {
      var r := repo.ActualizarContacto(c);
      if r.Fallo? {
        estadoGuardado := Some(Fallo(r.error));
      } else {
        estadoGuardado := Some(Exito(()));
      }
    }

    /** `getContactoById`: repoints `gruposDelContacto` at that contact and returns the contact. */
    method GetContactoById(id: int) returns (r: Option<Contacto>)
      modifies this
      ensures gruposDelContacto == Some(id) && estadoGuardado == old(estadoGuardado)
      ensures r == ContactoDao.PorId(repo.db.Estado(), id)
      ensures ValorGruposDelContacto() == GrupoDao.GruposDeUnContacto(repo.db.Estado(), id)
    {
      gruposDelContacto := Some(id);
      r := repo.GetContactoById(id);
    }

    /** `guardarContactoYAsociarGrupos`. */
    method GuardarContactoYAsociarGrupos(c: Contacto, gs: seq<int>)
      requires repo.db.Valid()
      modifies this, repo.db
      ensures repo.db.Valid() && gruposDelContacto == old(gruposDelContacto)
      ensures repo.db.Estado() == GuardarYAsociar(old(repo.db.Estado()), c, gs).bd
      ensures estadoGuardado == Some(GuardarYAsociar(old(repo.db.Estado()), c, gs).resultado)
      ensures repo.db.escrituras == old(repo.db.escrituras) + LlamadasGuardar(old(repo.db.Estado()), c, gs)
    {
      ghost var hechas := repo.db.escrituras;
      GuardarPorCasos(repo.db.Estado(), c, gs);
      if c.id == 0 {
        var nuevoId := repo.InsertarContacto(c);
        if nuevoId.Fallo? {
          estadoGuardado := Some(Fallo(nuevoId.error));
          return;
        }
        repo.ActualizarGruposDeContacto(nuevoId.valor, gs);
        Asociativa(hechas, [InsertContacto(c)], LlamadasAsociar(nuevoId.valor, gs));
        estadoGuardado := Some(Exito(()));
      } else {
        var r := repo.ActualizarContacto(c);
        if r.Fallo? {
          estadoGuardado := Some(Fallo(r.error));
          return;
        }
        repo.ActualizarGruposDeContacto(c.id, gs);
        Asociativa(hechas, [UpdateContacto(c)], LlamadasAsociar(c.id, gs));
        estadoGuardado := Some(Exito(()));
      }
    }

    /** `crearNuevoGrupo`: creates the group only for a name that is not blank. */
    method CrearNuevoGrupo(nombre: string)
      requires repo.db.Valid()
      modifies repo.db
      ensures repo.db.Valid()
      ensures repo.db.Estado() == GrupoNuevo(old(repo.db.Estado()), nombre)
      ensures repo.db.escrituras == old(repo.db.escrituras) + (if EsBlanco(nombre) then [] else [Escritura.CrearGrupo(Grupo(nombre := nombre))])
    {
      if !EsBlanco(nombre) {
        repo.CrearGrupo(Grupo(nombre := nombre));
      }
    }
  }
}
