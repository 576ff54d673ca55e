/**
 * The Room database behind the three DAOs: one object whose fields are the tables, with the
 * DAO write methods. Each method is proved against the DAO's function on the database
 * value, so the queries and the lemmas of `ContactoDao`, `CategoriaDao` and `GrupoDao`
 * apply to `Estado()` before and after every call.
 */
module BaseDeDatos {
  import opened Resultados
  import opened Modelo
  import opened Tablas
  import ContactoDao
  import CategoriaDao
  import GrupoDao

  /** A DAO write call, as recorded in the call log. */
  datatype Escritura =
    | InsertContacto(c: Contacto)
    | UpdateContacto(c: Contacto)
    | DeleteContacto(c: Contacto)
    | InsertarVarios(cs: seq<Contacto>)
    | InsertCategoria(k: Categoria)
    | CrearGrupo(g: Grupo)
    | AddContactoAGrupo(e: Enlace)
    | RemoveContactoDeGrupo(e: Enlace)
    | LimpiarGruposDeContacto(x: int)

  /** The seed the database callback stores on creation: four categories, then three groups. */
  function Sembrada(): (r: BD)
    ensures Valida(r)
  {
    var b0 := Vacia();
    var b1 := CategoriaDao.Insertar(b0, Categoria(nombre := "Familia"));
    CategoriaDao.InsertarPreservaValida(b0, Categoria(nombre := "Familia"));
    var b2 := CategoriaDao.Insertar(b1, Categoria(nombre := "Trabajo"));
    CategoriaDao.InsertarPreservaValida(b1, Categoria(nombre := "Trabajo"));
    var b3 := CategoriaDao.Insertar(b2, Categoria(nombre := "Amigos"));
    CategoriaDao.InsertarPreservaValida(b2, Categoria(nombre := "Amigos"));
    var b4 := CategoriaDao.Insertar(b3, Categoria(nombre := "General"));
    CategoriaDao.InsertarPreservaValida(b3, Categoria(nombre := "General"));
    var b5 := GrupoDao.CrearGrupo(b4, Grupo(nombre := "Grupo 1"));
    GrupoDao.CrearGrupoPreservaValida(b4, Grupo(nombre := "Grupo 1"));
    var b6 := GrupoDao.CrearGrupo(b5, Grupo(nombre := "Grupo 2"));
    GrupoDao.CrearGrupoPreservaValida(b5, Grupo(nombre := "Grupo 2"));
    GrupoDao.CrearGrupoPreservaValida(b6, Grupo(nombre := "Grupo 3"));
    GrupoDao.CrearGrupo(b6, Grupo(nombre := "Grupo 3"))
  }

  /** The seeded categories get ids 1 to 4 in insertion order, so category 1 is "Familia". */
  lemma SembradaIds()
    ensures Sembrada().categorias == map[
      1 := Categoria(1, "Familia"), 2 := Categoria(2, "Trabajo"),
      3 := Categoria(3, "Amigos"), 4 := Categoria(4, "General")]
    ensures Sembrada().grupos == map[1 := Grupo(1, "Grupo 1"), 2 := Grupo(2, "Grupo 2"), 3 := Grupo(3, "Grupo 3")]
    ensures Sembrada().contactos == map[] && Sembrada().enlaces == {}
  {
  }

  class ContactosDatabase {
    var contactos: map<int, Contacto>
    var categorias: map<int, Categoria>
    var grupos: map<int, Grupo>
    var enlaces: set<Enlace>
    var secContactos: int
    var secCategorias: int
    var secGrupos: int
    /** Every DAO write call made so far, in order. */
    ghost var escrituras: seq<Escritura>

    /** The tables as a value. */
    function Estado(): BD
      reads this
    {
      BD(contactos, categorias, grupos, enlaces, secContactos, secCategorias, secGrupos)
    }

    ghost predicate Valid()
      reads this
    {
      Valida(Estado())
    }

    /** Opens a database holding `inicial` (for a new file, `Vacia()` or, after the seed callback, `Sembrada()`). */
    constructor (inicial: BD)
      requires Valida(inicial)
      ensures Valid() && Estado() == inicial && escrituras == []
    {
      contactos, categorias, grupos, enlaces := inicial.contactos, inicial.categorias, inicial.grupos, inicial.enlaces;
      secContactos, secCategorias, secGrupos := inicial.secContactos, inicial.secCategorias, inicial.secGrupos;
      escrituras := [];
    }

    /** `ContactoDao.insert`: REPLACE; returns the row id. */
    method Insert(c: Contacto) returns (r: Resultado<int>)
      requires Valid()
      modifies this
      ensures Valid()
      ensures escrituras == old(escrituras) + [InsertContacto(c)]
      ensures match ContactoDao.Insertar(old(Estado()), c)
        case Fallo(e) => r == Fallo(e) && Estado() == old(Estado())
        case Exito(ins) => r == Exito(ins.id) && Estado() == ins.bd
    {
      ContactoDao.InsertarPreservaValida(Estado(), c);
      escrituras := escrituras + [InsertContacto(c)];
      if c.categoriaId.Some? && c.categoriaId.value !in categorias {
        return Fallo(ClaveForaneaViolada);
      }
      var id := if c.id == 0 then secContactos + 1 else c.id;
      contactos := contactos[id := c.(id := id)];
      if id > secContactos {
        secContactos := id;
      }
      r := Exito(id);
    }

    /** `ContactoDao.update`. */
    method Update(c: Contacto) returns (r: Resultado<()>)
      requires Valid()
      modifies this
      ensures Valid()
      ensures escrituras == old(escrituras) + [UpdateContacto(c)]
      ensures match ContactoDao.Actualizar(old(Estado()), c)
        case Fallo(e) => r == Fallo(e) && Estado() == old(Estado())
        case Exito(b) => r == Exito(()) && Estado() == b
    {
      ContactoDao.ActualizarPreservaValida(Estado(), c);
      escrituras := escrituras + [UpdateContacto(c)];
      if c.id in contactos {
        if c.categoriaId.Some? && c.categoriaId.value !in categorias {
          return Fallo(ClaveForaneaViolada);
        }
        contactos := contactos[c.id := c];
      }
      r := Exito(());
    }

    /** `ContactoDao.delete`. */
    method Delete(c: Contacto)
      requires Valid()
      modifies this
      ensures Valid()
      ensures escrituras == old(escrituras) + [DeleteContacto(c)]
      ensures Estado() == ContactoDao.Eliminar(old(Estado()), c)
    {
      ContactoDao.EliminarPreservaValida(Estado(), c);
      escrituras := escrituras + [DeleteContacto(c)];
      contactos := contactos - {c.id};
    }

    /**
     * `ContactoDao.insertarVarios`: IGNORE for each row, in one transaction. The rows are
     * applied to a working copy that is committed only when every row went through.
     */
    method InsertarVarios(cs: seq<Contacto>) returns (r: Resultado<()>)
      requires Valid()
      modifies this
      ensures Valid()
      ensures escrituras == old(escrituras) + [Escritura.InsertarVarios(cs)]
      ensures match ContactoDao.InsertarVarios(old(Estado()), cs)
        case Fallo(e) => r == Fallo(e) && Estado() == old(Estado())
        case Exito(b) => r == Exito(()) && Estado() == b
    {
      ContactoDao.InsertarVariosConserva(Estado(), cs);
      escrituras := escrituras + [Escritura.InsertarVarios(cs)];
      var filas, sec := contactos, secContactos;
      var i := 0;
      while i < |cs|
        invariant 0 <= i <= |cs|
        invariant Valida(Estado().(contactos := filas, secContactos := sec))
        invariant ContactoDao.InsertarVarios(old(Estado()), cs)
               == ContactoDao.InsertarVarios(Estado().(contactos := filas, secContactos := sec), cs[i..])
        invariant Estado() == old(Estado()) && escrituras == old(escrituras) + [Escritura.InsertarVarios(cs)]
      {
        var actual := Estado().(contactos := filas, secContactos := sec);
        ContactoDao.InsertarPreservaValida(actual, cs[i]);
        assert cs[i..][0] == cs[i] && cs[i..][1..] == cs[i + 1..];
        var id := if cs[i].id == 0 then sec + 1 else cs[i].id;
        if id !in filas {
          if cs[i].categoriaId.Some? && cs[i].categoriaId.value !in categorias {
            return Fallo(ClaveForaneaViolada);
          }
          filas := filas[id := cs[i].(id := id)];
          if id > sec {
            sec := id;
          }
        }
        i := i + 1;
      }
      assert cs[i..] == [];
      contactos, secContactos := filas, sec;
      r := Exito(());
    }

    /** `CategoriaDao.insert`: IGNORE. */
    method InsertCategoria(k: Categoria)
      requires Valid()
      modifies this
      ensures Valid()
      ensures escrituras == old(escrituras) + [Escritura.InsertCategoria(k)]
      ensures Estado() == CategoriaDao.Insertar(old(Estado()), k)
    {
      ghost var despues := CategoriaDao.Insertar(Estado(), k);
      CategoriaDao.InsertarPreservaValida(Estado(), k);
      escrituras := escrituras + [Escritura.InsertCategoria(k)];
      var id := if k.id == 0 then secCategorias + 1 else k.id;
      if id !in categorias {
        categorias := categorias[id := k.(id := id)];
        if id > secCategorias {
          secCategorias := id;
        }
        assert categorias == despues.categorias && secCategorias == despues.secCategorias;
      }
      assert Estado() == despues;
    }

    /** `GrupoDao.crearGrupo`: IGNORE. */
    method CrearGrupo(g: Grupo)
      requires Valid()
      modifies this
      ensures Valid()
      ensures escrituras == old(escrituras) + [Escritura.CrearGrupo(g)]
      ensures Estado() == GrupoDao.CrearGrupo(old(Estado()), g)
    {
      ghost var despues := GrupoDao.CrearGrupo(Estado(), g);
      GrupoDao.CrearGrupoPreservaValida(Estado(), g);
      escrituras := escrituras + [Escritura.CrearGrupo(g)];
      var id := if g.id == 0 then secGrupos + 1 else g.id;
      if id !in grupos {
        grupos := grupos[id := g.(id := id)];
        if id > secGrupos {
          secGrupos := id;
        }
        assert grupos == despues.grupos && secGrupos == despues.secGrupos;
      }
      assert Estado() == despues;
    }

    /** `GrupoDao.addContactoAGrupo`: IGNORE on the pair. */
    method AddContactoAGrupo(e: Enlace)
      requires Valid()
      modifies this
      ensures Valid()
      ensures escrituras == old(escrituras) + [Escritura.AddContactoAGrupo(e)]
      ensures Estado() == GrupoDao.AgregarEnlace(old(Estado()), e)
    {
      escrituras := escrituras + [Escritura.AddContactoAGrupo(e)];
      enlaces := enlaces + {e};
    }

    /** `GrupoDao.removeContactoDeGrupo`. */
    method RemoveContactoDeGrupo(e: Enlace)
      requires Valid()
      modifies this
      ensures Valid()
      ensures escrituras == old(escrituras) + [Escritura.RemoveContactoDeGrupo(e)]
      ensures Estado() == GrupoDao.QuitarEnlace(old(Estado()), e)
    {
      escrituras := escrituras + [Escritura.RemoveContactoDeGrupo(e)];
      enlaces := enlaces - {e};
    }

    /** `GrupoDao.limpiarGruposDeContacto`: deletes the group with that id. */
    method LimpiarGruposDeContacto(x: int)
      requires Valid()
      modifies this
      ensures Valid()
      ensures escrituras == old(escrituras) + [Escritura.LimpiarGruposDeContacto(x)]
      ensures Estado() == GrupoDao.LimpiarGruposDeContacto(old(Estado()), x)
    {
      escrituras := escrituras + [Escritura.LimpiarGruposDeContacto(x)];
      grupos := grupos - {x};
    }
  }
}
