/**
 * `AgregarContactoActivity`: the add/edit form. Saving trims the five text inputs, checks
 * the name, then the phone, then the email, stops at the first failure, and otherwise
 * builds the record and hands it to the view-model with the selected groups. The group
 * dialog toggles ids in an insertion-ordered set; the summary lists the selected names.
 */
module FormularioContacto {
  import opened Resultados
  import opened Modelo
  import opened Tablas
  import opened Texto
  import opened Sql
  import opened Validacion
  import GrupoDao
  import opened BaseDeDatos
  import opened Repositorio
  import opened EdicionContacto

  // ---------------------------------------------------------------- the id extra

  /** `getIntExtra(EXTRA_CONTACTO_ID, -1).takeIf { it != -1 }`: an absent extra reads as -1, and -1 means "new". */
  function IdDesdeExtra(extra: Option<int>): (r: Option<int>)
    ensures r == None <==> extra == None || extra == Some(-1)
    ensures r.Some? ==> extra == Some(r.value) && r.value != -1
  {
    match extra
    case None => None
    case Some(x) => if x != -1 then Some(x) else None
  }

  // ---------------------------------------------------------------- saving

  /** The five text inputs of the form, as typed. */
  datatype Formulario = Formulario(nombre: string, telefono: string, email: string, linkedin: string, website: string)

  /** The field whose error is shown. */
  datatype Campo = Nombre | Telefono | Email

  /** What `guardarContacto` does: reject one field, or save the record built from the form. */
  datatype Decision = Rechazar(campo: Campo) | Guardar(c: Contacto)

  /** The form with every input trimmed. */
  function Recortado(f: Formulario): Formulario {
    Formulario(Recortar(f.nombre), Recortar(f.telefono), Recortar(f.email), Recortar(f.linkedin), Recortar(f.website))
  }

  /**
   * The checks and the record on already-trimmed inputs. The record takes `contactoId ?: 0`,
   * the texts, the email as given (an empty one is stored as "", not null) and the
   * selected category id, -1 when none was picked.
   */
  function Decidir(id: Option<int>, t: Formulario, categoria: int, patron: string -> bool): Decision {
    if !IsNombreValido(t.nombre) then Rechazar(Nombre)
    else if !IsTelefonoValido(t.telefono) then Rechazar(Telefono)
    else if !IsEmailValido(t.email, patron) then Rechazar(Email)
    else Guardar(Contacto(id.GetOr(0), t.nombre, t.telefono, Some(t.email), Some(categoria), t.linkedin, t.website))
  }

  /** `guardarContacto` as a decision: every input is trimmed before any check. */
  function DecidirGuardado(id: Option<int>, f: Formulario, categoria: int, patron: string -> bool): Decision {
    Decidir(id, Recortado(f), categoria, patron)
  }

  /** Trimming does not change whether a text is blank. */
  lemma BlancoRecortado(s: string)
    ensures EsBlanco(Recortar(s)) <==> EsBlanco(s)
  {
    RecortarVacioSiiBlanco(s);
    RecortadoNoVacioNoEsBlanco(s);
  }

  /**
   * The checks run name, then phone, then email, and the first failing one is reported:
   * a blank name is reported whatever the other fields hold, a blank phone only with a
   * name, and the email only with both; an email is checked only when it is not blank.
   */
  lemma DecidirOrden(id: Option<int>, f: Formulario, categoria: int, patron: string -> bool)
    ensures var d := DecidirGuardado(id, f, categoria, patron);
      && (d == Rechazar(Nombre) <==> EsBlanco(f.nombre))
      && (d == Rechazar(Telefono) <==> !EsBlanco(f.nombre) && EsBlanco(f.telefono))
      && (d == Rechazar(Email) <==>
            !EsBlanco(f.nombre) && !EsBlanco(f.telefono) && !EsBlanco(f.email) && !patron(Recortar(f.email)))
      && (d.Guardar? <==>
            !EsBlanco(f.nombre) && !EsBlanco(f.telefono) && (EsBlanco(f.email) || patron(Recortar(f.email))))
  {
    BlancoRecortado(f.nombre);
    BlancoRecortado(f.telefono);
    BlancoRecortado(f.email);
  }

  /** A saving decision on trimmed inputs carries the record built from them, whose name and phone are not blank. */
  lemma GuardarDe(id: Option<int>, t: Formulario, categoria: int, patron: string -> bool)
    requires Decidir(id, t, categoria, patron).Guardar?
    ensures Decidir(id, t, categoria, patron).c
      == Contacto(id.GetOr(0), t.nombre, t.telefono, Some(t.email), Some(categoria), t.linkedin, t.website)
    ensures !EsBlanco(t.nombre) && !EsBlanco(t.telefono)
  {
  }

  /** Each field of the trimmed form is its input trimmed. */
  lemma RecortadoCampos(f: Formulario)
    ensures var t := Recortado(f);
      && EsRecorte(f.nombre, t.nombre) && EsRecorte(f.telefono, t.telefono) && EsRecorte(f.email, t.email)
      && EsRecorte(f.linkedin, t.linkedin) && EsRecorte(f.website, t.website)
      && (EsBlanco(f.email) ==> t.email == "")
  {
    RecortarVacioSiiBlanco(f.email);
  }

  /**
   * The saved record: the id from the extra or 0, every text trimmed, the email kept even
   * when empty, and the selected category. A new contact (no id) is one not stored yet.
   */
  lemma DecidirRegistro(id: Option<int>, f: Formulario, categoria: int, patron: string -> bool)
    ensures var d := DecidirGuardado(id, f, categoria, patron);
      d.Guardar? ==>
        && d.c.id == (if id.Some? then id.value else 0)
        && (id == None ==> SinGuardar(d.c))
        && EsRecorte(f.nombre, d.c.nombre) && EsRecorte(f.telefono, d.c.telefono)
        && EsRecorte(f.linkedin, d.c.linkedin) && EsRecorte(f.website, d.c.website)
        && d.c.email.Some? && EsRecorte(f.email, d.c.email.value)
        && (EsBlanco(f.email) ==> d.c.email == Some(""))
        && !EsBlanco(d.c.nombre) && !EsBlanco(d.c.telefono)
        && d.c.categoriaId == Some(categoria)
  {
    if DecidirGuardado(id, f, categoria, patron).Guardar? {
      GuardarDe(id, Recortado(f), categoria, patron);
      RecortadoCampos(f);
    }
  }

  /** Typing already-trimmed text decides the same: trimming inside the save is idempotent. */
  lemma DecidirRecortado(id: Option<int>, f: Formulario, categoria: int, patron: string -> bool)
    ensures DecidirGuardado(id, Recortado(f), categoria, patron) == DecidirGuardado(id, f, categoria, patron)
  {
    RecortarIdempotente(f.nombre);
    RecortarIdempotente(f.telefono);
    RecortarIdempotente(f.email);
    RecortarIdempotente(f.linkedin);
    RecortarIdempotente(f.website);
    assert Recortado(Recortado(f)) == Recortado(f);
  }

  /**
   * A record whose category is not stored (the default -1 when nothing was picked) makes
   * the save throw, unless it is an edit of a contact that no longer exists; then the
   * database keeps no trace of the attempt.
   */
  lemma GuardarSinCategoria(bd: BD, id: Option<int>, f: Formulario, categoria: int, patron: string -> bool, gs: seq<int>)
    requires Valida(bd) && categoria !in bd.categorias
    requires DecidirGuardado(id, f, categoria, patron).Guardar?
    ensures var c := DecidirGuardado(id, f, categoria, patron).c;
      (c.id == 0 || c.id in bd.contactos) ==>
        GuardarYAsociar(bd, c, gs).resultado.Fallo? && GuardarYAsociar(bd, c, gs).bd == bd
  {
    var c := DecidirGuardado(id, f, categoria, patron).c;
    DecidirRegistro(id, f, categoria, patron);
    GuardarFalla(bd, c, gs);
    GuardarSoloAgregaEnlaces(bd, c, gs);
  }

  // ---------------------------------------------------------------- group selection

  /** `remove` on the selection: every occurrence of `id` goes, the rest keep their order. */
  function Quitar(s: seq<int>, id: int): (r: seq<int>)
    ensures id !in r
    ensures forall x :: x != id ==> (x in r <==> x in s)
    ensures SinRepetidos(s) ==> SinRepetidos(r)
  {
    if s == [] then []
    else if s[0] == id then Quitar(s[1..], id)
    else
      var resto := Quitar(s[1..], id);
      assert SinRepetidos(s) ==> s[0] !in s[1..] && SinRepetidos(s[1..]);
      [s[0]] + resto
  }

  /**
   * The dialog's listener on the `LinkedHashSet` of selected ids: a checked group's id is
   * added at the end if absent, an unchecked one removed. No other id changes, and no id
   * ever appears twice.
   */
  function Alternar(s: seq<int>, id: int, marcado: bool): (r: seq<int>)
    ensures id in r <==> marcado
    ensures forall x :: x != id ==> (x in r <==> x in s)
    ensures SinRepetidos(s) ==> SinRepetidos(r)
    ensures marcado ==> r == (if id in s then s else s + [id])
  {
    if marcado then (if id in s then s else s + [id]) else Quitar(s, id)
  }

  /** Checking a group and then unchecking it restores a selection that did not hold it. */
  lemma AlternarDeshace(s: seq<int>, id: int)
    requires id !in s
    ensures Alternar(Alternar(s, id, true), id, false) == s
  {
    QuitarAusente(s, id);
    QuitarUltimo(s, id);
  }

  lemma {:induction false} QuitarAusente(s: seq<int>, id: int)
    requires id !in s
    ensures Quitar(s, id) == s
  {
    if s != [] {
      QuitarAusente(s[1..], id);
    }
  }

  lemma {:induction false} QuitarUltimo(s: seq<int>, id: int)
    ensures Quitar(s + [id], id) == Quitar(s, id)
  {
    if s == [] {
      assert [id][1..] == [];
    } else {
      assert (s + [id])[1..] == s[1..] + [id];
      QuitarUltimo(s[1..], id);
    }
  }

  // ---------------------------------------------------------------- the summary text

  /** The groups of `lista` whose id is selected, in `lista` order. */
  function Seleccionados(lista: seq<Grupo>, ids: seq<int>): seq<Grupo> {
    Filtrar(lista, (g: Grupo) => g.id in ids)
  }

  function NombresDe(gs: seq<Grupo>): (r: seq<string>)
    ensures |r| == |gs| && forall i :: 0 <= i < |gs| ==> r[i] == gs[i].nombre
  {
    seq(|gs|, i requires 0 <= i < |gs| => gs[i].nombre)
  }

  /** `actualizarTextoGruposSeleccionados`: the selected names joined by ", ", or "Ninguno" for an empty join. */
  function TextoGrupos(lista: seq<Grupo>, ids: seq<int>): string {
    var unidos := Unir(NombresDe(Seleccionados(lista, ids)), ", ");
    if unidos == [] then "Ninguno" else unidos
  }

  /** With no listed group selected the summary is "Ninguno". */
  lemma TextoSinSeleccion(lista: seq<Grupo>, ids: seq<int>)
    requires forall g :: g in lista ==> g.id !in ids
    ensures TextoGrupos(lista, ids) == "Ninguno"
  {
    FiltrarNinguno(lista, (g: Grupo) => g.id in ids);
  }

  /**
   * With some selected group that has a name, the summary is the join of the names of
   * exactly the selected listed groups, in list order: the join of all but the last name,
   * then ", " and the last name.
   */
  lemma TextoConSeleccion(lista: seq<Grupo>, ids: seq<int>, g: Grupo)
    requires g in lista && g.id in ids && g.nombre != ""
    ensures TextoGrupos(lista, ids) == Unir(NombresDe(Seleccionados(lista, ids)), ", ")
    ensures TextoGrupos(lista, ids) != []
    ensures forall h :: h in Seleccionados(lista, ids) <==> h in lista && h.id in ids
    ensures var ns := NombresDe(Seleccionados(lista, ids));
      |ns| >= 2 ==> TextoGrupos(lista, ids) == Unir(ns[..|ns| - 1], ", ") + ", " + ns[|ns| - 1]
  {
    var sel := Seleccionados(lista, ids);
    var ns := NombresDe(sel);
    assert g in sel;
    UnirVacio(ns, ", ");
    if |sel| == 1 {
      assert sel[0] == g;
    }
    if |ns| >= 2 {
      assert ns[..|ns| - 1] + [ns[|ns| - 1]] == ns;
      UnirAgregar(ns[..|ns| - 1], ns[|ns| - 1], ", ");
    }
  }

  // ---------------------------------------------------------------- the new-group dialog

  /** The name the "Crear Grupo" dialog passes on: the trimmed input, only when it is not empty. */
  function NombreGrupoDialogo(entrada: string): (r: Option<string>)
    ensures r.Some? <==> !EsBlanco(entrada)
    ensures r.Some? ==> r.value == Recortar(entrada) && !EsBlanco(r.value)
  {
    RecortarVacioSiiBlanco(entrada);
    RecortadoNoVacioNoEsBlanco(entrada);
    var n := Recortar(entrada);
    if n != [] then Some(n) else None
  }

  // ---------------------------------------------------------------- the activity

  class AgregarContactoActivity {
    const vm: AgregarContactoViewModel
    var contactoId: Option<int>
    var categoriaSeleccionadaId: int
    var listaCategorias: seq<Categoria>
    var listaTodosLosGrupos: seq<Grupo>
    /** `idsGruposSeleccionados`, in insertion order. */
    var idsGruposSeleccionados: seq<int>
    /** The field showing an error after the last save, if any. */
    var error: Option<Campo>
    /** The text of `tvGruposSeleccionados`. */
    var textoGrupos: string

    ghost predicate Valid()
      reads this
    {
      SinRepetidos(idsGruposSeleccionados)
    }

    /** `onCreate`: decodes the extra; nothing selected yet. */
    constructor (vm: AgregarContactoViewModel, extra: Option<int>)
      ensures this.vm == vm && contactoId == IdDesdeExtra(extra) && categoriaSeleccionadaId == -1
      ensures listaCategorias == [] && listaTodosLosGrupos == [] && idsGruposSeleccionados == []
      ensures error == None && Valid()
    {
      this.vm := vm;
      contactoId := IdDesdeExtra(extra);
      categoriaSeleccionadaId := -1;
      listaCategorias := [];
      listaTodosLosGrupos := [];
      idsGruposSeleccionados := [];
      error := None;
    }

    /** The `todasLasCategorias` observer. */
    method ObservarCategorias()
      modifies this
      ensures listaCategorias == vm.TodasLasCategorias()
      ensures categoriaSeleccionadaId == old(categoriaSeleccionadaId) && idsGruposSeleccionados == old(idsGruposSeleccionados)
      ensures listaTodosLosGrupos == old(listaTodosLosGrupos) && contactoId == old(contactoId)
      ensures error == old(error) && textoGrupos == old(textoGrupos)
    {
      listaCategorias := vm.TodasLasCategorias();
    }

    /** The `todosLosGrupos` observer. */
    method ObservarGrupos()
      modifies this
      ensures listaTodosLosGrupos == vm.TodosLosGrupos()
      ensures categoriaSeleccionadaId == old(categoriaSeleccionadaId) && idsGruposSeleccionados == old(idsGruposSeleccionados)
      ensures listaCategorias == old(listaCategorias) && contactoId == old(contactoId)
      ensures error == old(error) && textoGrupos == old(textoGrupos)
    {
      listaTodosLosGrupos := vm.TodosLosGrupos();
    }

    /** `onItemSelected` on the category spinner: ignored while the list is empty. */
    method AlSeleccionarCategoria(posicion: int)
      requires listaCategorias == [] || 0 <= posicion < |listaCategorias|
      modifies this
      ensures listaCategorias == old(listaCategorias) && idsGruposSeleccionados == old(idsGruposSeleccionados)
      ensures listaTodosLosGrupos == old(listaTodosLosGrupos) && contactoId == old(contactoId)
      ensures error == old(error) && textoGrupos == old(textoGrupos)
      ensures categoriaSeleccionadaId == (if listaCategorias == [] then old(categoriaSeleccionadaId) else listaCategorias[posicion].id)
    {
      if listaCategorias != [] {
        categoriaSeleccionadaId := listaCategorias[posicion].id;
      }
    }

    /** `guardarContacto`: trim, validate in order with early returns, then save with the selected groups. */
    method GuardarContacto(f: Formulario, patron: string -> bool)
      requires vm.repo.db.Valid()
      modifies this, vm, vm.repo.db
      ensures vm.repo.db.Valid()
      ensures contactoId == old(contactoId) && categoriaSeleccionadaId == old(categoriaSeleccionadaId)
      ensures idsGruposSeleccionados == old(idsGruposSeleccionados) && listaTodosLosGrupos == old(listaTodosLosGrupos)
      ensures listaCategorias == old(listaCategorias) && textoGrupos == old(textoGrupos)
      ensures vm.gruposDelContacto == old(vm.gruposDelContacto)
      ensures match DecidirGuardado(old(contactoId), f, old(categoriaSeleccionadaId), patron)
        case Rechazar(campo) =>
          && error == Some(campo) && vm.estadoGuardado == old(vm.estadoGuardado)
          && vm.repo.db.Estado() == old(vm.repo.db.Estado()) && vm.repo.db.escrituras == old(vm.repo.db.escrituras)
        case Guardar(c) =>
          && error == None
          && vm.repo.db.Estado() == GuardarYAsociar(old(vm.repo.db.Estado()), c, idsGruposSeleccionados).bd
          && vm.estadoGuardado == Some(GuardarYAsociar(old(vm.repo.db.Estado()), c, idsGruposSeleccionados).resultado)
          && vm.repo.db.escrituras == old(vm.repo.db.escrituras) + LlamadasGuardar(old(vm.repo.db.Estado()), c, idsGruposSeleccionados)
    {
      var t := Recortado(f);
      ghost var d := Decidir(contactoId, t, categoriaSeleccionadaId, patron);
      var nombre := t.nombre;
      var telefono := t.telefono;
      var email := t.email;
      var categoriaId := categoriaSeleccionadaId;
      var linkedin := t.linkedin;
      var website := t.website;
      error := None;
      if !IsNombreValido(nombre) {
        error := Some(Nombre);
        assert d == Rechazar(Nombre);
      } else if !IsTelefonoValido(telefono) {
        error := Some(Telefono);
        assert d == Rechazar(Telefono);
      } else if !IsEmailValido(email, patron) {
        error := Some(Email);
        assert d == Rechazar(Email);
      } else {
        var contacto := Contacto(contactoId.GetOr(0), nombre, telefono, Some(email), Some(categoriaId), linkedin, website);
        assert d == Guardar(contacto);
        vm.GuardarContactoYAsociarGrupos(contacto, idsGruposSeleccionados);
      }
    }

    /** The multi-choice listener: the id of the group at position `cual` is added or removed. */
    method AlMarcarGrupo(cual: int, marcado: bool)
      requires Valid() && 0 <= cual < |listaTodosLosGrupos|
      modifies this
      ensures Valid() && listaTodosLosGrupos == old(listaTodosLosGrupos) && textoGrupos == old(textoGrupos)
      ensures idsGruposSeleccionados == Alternar(old(idsGruposSeleccionados), listaTodosLosGrupos[cual].id, marcado)
      ensures contactoId == old(contactoId) && categoriaSeleccionadaId == old(categoriaSeleccionadaId)
      ensures listaCategorias == old(listaCategorias) && error == old(error)
    {
      var id := listaTodosLosGrupos[cual].id;
      if marcado {
        if id !in idsGruposSeleccionados {
          idsGruposSeleccionados := idsGruposSeleccionados + [id];
        }
      } else {
        idsGruposSeleccionados := Quitar(idsGruposSeleccionados, id);
      }
    }

    /** `actualizarTextoGruposSeleccionados`. */
    method ActualizarTextoGruposSeleccionados()
      modifies this
      ensures textoGrupos == TextoGrupos(listaTodosLosGrupos, idsGruposSeleccionados)
      ensures listaTodosLosGrupos == old(listaTodosLosGrupos) && idsGruposSeleccionados == old(idsGruposSeleccionados)
      ensures contactoId == old(contactoId) && categoriaSeleccionadaId == old(categoriaSeleccionadaId)
      ensures listaCategorias == old(listaCategorias) && error == old(error)
    {
      var unidos := Unir(NombresDe(Seleccionados(listaTodosLosGrupos, idsGruposSeleccionados)), ", ");
      textoGrupos := if unidos == [] then "Ninguno" else unidos;
    }

    /** The "Guardar" button of the new-group dialog: creates the group only for a name that trims to something. */
    method CrearGrupoDesdeDialogo(entrada: string)
      requires vm.repo.db.Valid()
      modifies vm.repo.db
      ensures vm.repo.db.Valid()
      ensures vm.repo.db.Estado() == match NombreGrupoDialogo(entrada)
        case None => old(vm.repo.db.Estado())
        case Some(n) => GrupoDao.CrearGrupo(old(vm.repo.db.Estado()), Grupo(nombre := n))
      ensures vm.repo.db.escrituras == old(vm.repo.db.escrituras) + match NombreGrupoDialogo(entrada)
        case None => []
        case Some(n) => [Escritura.CrearGrupo(Grupo(nombre := n))]
    {
      var nombreGrupo := Recortar(entrada);
      RecortarVacioSiiBlanco(entrada);
      RecortadoNoVacioNoEsBlanco(entrada);
      if nombreGrupo != [] {
        vm.CrearNuevoGrupo(nombreGrupo);
      }
    }
  }
}
