# Contactos — a verified model of the contacts app core

This project models the core of an Android contacts app in Dafny. The app keeps contacts,
categories, groups and contact–group links in a Room (SQLite) database. From the database up,
the model covers:

- **Tables** (`Tablas`, `Modelo`): the record types, and the whole database as one value `BD`.
  The value holds the four tables and the AUTOINCREMENT counters. There is a database
  invariant `Valida`: every row is stored under its own id, no id exceeds its table's
  counter, and every category reference names a stored category.
- **DAOs** (`ContactoDao`, `CategoriaDao`, `GrupoDao`): every annotated method as a function
  on `BD`. Writes follow SQLite's conflict strategies: REPLACE, ABORT or IGNORE, with the
  foreign key on `categoria_id` enforced. Queries return exactly the matching rows, with
  ORDER BY proved sorted and a permutation. `Sql` models what the queries need: LIKE with
  `%`, `_` and ASCII case folding; WHERE; ORDER BY under the BINARY collation; and the rowid
  scan. `Texto` models the Kotlin string operations: `trim`, `isBlank`, the `\s` regex and
  `joinToString`.
- **The database object** (`BaseDeDatos.ContactosDatabase`): a class whose fields are the
  tables. Each DAO write is a method proved against its DAO function. A ghost call log
  `escrituras` records every write, so the upper layers can state exactly which DAO calls
  they make.
- **Repository** (`Repositorio`): search, backup and restore, the device import, and group
  association. The import runs its loop as in the code, over a device cursor passed in as
  data.
- **vCard export** (`VCard`): the builder loop, proved against the concatenated blocks.
  Its partner is a line reader: reading the output back gives every block's lines and the
  names in order.
- **View-models and screens** (`VistaContactos`, `EdicionContacto`, `FormularioContacto`,
  `Principal`):
  - the search switch and the import status history;
  - the save flow, case by case (insert or update, then links);
  - the form's trim-then-validate decision;
  - the group selection toggles and the selection summary;
  - the URL helpers and the export guard.

Behaviour of the code that the model keeps as written:

- `restaurarContactos` re-inserts each backup row with `insert`, which uses REPLACE. A row
  with a non-zero id therefore keeps that id and overwrites the stored row with it. It does
  not get a fresh id (`Repositorio.RestaurarSobrescribe`).
- The exporter writes these lines, with LF line ends:
  - `BEGIN:VCARD` and `END:VCARD`;
  - `Linkedin:https://www.linkedin.com/in/<profile>`;
  - `website:<url>`.
- `linkedin` and `website` are never null, so the `Linkedin;` and `website;` branches never
  run. Both lines are always written, even when empty.
- `limpiarGruposDeContacto(x)` deletes the group whose id is `x`, not the links of contact
  `x`. The repository's call to it is commented out, so updating a contact's groups only
  ever adds links (`GrupoDao.LimpiarDejaEnlaces`, `Repositorio.AsociarGrupos`).

Decisions where the code leaves something open:

- **Foreign key.** It is enforced, because Room turns foreign keys on for a schema that
  declares one. An insert or update naming a missing category throws, whatever the
  conflict strategy.
- **The save with no category picked.** It stores `categoriaId = -1`, the form's default.
  That save throws unless it edits a contact that no longer exists
  (`FormularioContacto.GuardarSinCategoria`). In the app, the spinner's first layout usually
  fires `onItemSelected(0)` (`AlSeleccionarCategoria(0)`). So the -1 lasts only until the
  category list arrives.
- **The saved email.** It is always `Some(trimmed input)`, so an empty email is stored as
  `""`, not as null.
- **Key generation.** Room binds an id of 0 as NULL. AUTOINCREMENT then uses one more than
  the largest id ever used, which the counters `sec*` track.
- **Ties under ORDER BY.** SQL leaves their order unspecified. The model keeps scan order,
  which is rowid order.

## Model

| member | source | states |
|---|---|---|
| Texto.EspacioRegexEsEspacio | app/src/main/java/com/app/contactos/utils/ValidationUtils.kt:13-15 | every character the `\s` class matches is also whitespace for `isBlank` |
| Texto.SinEspaciosIniciales | app/src/main/java/com/app/contactos/AgregarContactoActivity.kt:125-130 | the result is a suffix of the text, what was dropped is whitespace, and it does not start with whitespace |
| Texto.SinEspaciosFinales | app/src/main/java/com/app/contactos/AgregarContactoActivity.kt:125-130 | the result is a prefix of the text, what was dropped is whitespace, and it does not end with whitespace |
| Texto.Recortar | app/src/main/java/com/app/contactos/AgregarContactoActivity.kt:125-130 | `trim()`: the text with a whitespace-only prefix and suffix removed, neither starting nor ending with whitespace |
| Texto.RecortarVacioSiiBlanco | app/src/main/java/com/app/contactos/AgregarContactoActivity.kt:125-130 | a trimmed input is empty exactly when the input was blank |
| Texto.RecortadoNoVacioNoEsBlanco | app/src/main/java/com/app/contactos/AgregarContactoActivity.kt:272-274 | a non-empty trimmed input is not blank |
| Texto.RecortarIdempotente | app/src/main/java/com/app/contactos/AgregarContactoActivity.kt:125-130 | trimming twice is trimming once |
| Texto.QuitarEspaciosRegex | app/src/main/java/com/app/contactos/repository/ContactosRepository.kt:119 | `replace("\\s".toRegex(), "")`: the result holds no `\s` character, no longer than the input, and has exactly the input's non-`\s` characters |
| Texto.QuitarEspaciosRegexSinEspacios | app/src/main/java/com/app/contactos/repository/ContactosRepository.kt:119 | a number with no `\s` character is left unchanged |
| Texto.QuitarEspaciosRegexConcatenar | app/src/main/java/com/app/contactos/repository/ContactosRepository.kt:119 | cleaning a concatenation is the concatenation of the cleaned parts, so order and repeats are kept |
| Texto.QuitarEspaciosRegexUno | app/src/main/java/com/app/contactos/repository/ContactosRepository.kt:119 | a single character is removed when it is `\s` and kept otherwise |
| Texto.QuitarEspaciosRegexIdempotente | app/src/main/java/com/app/contactos/repository/ContactosRepository.kt:119 | cleaning a cleaned number changes nothing |
| Texto.Unir | app/src/main/java/com/app/contactos/AgregarContactoActivity.kt:294 | `joinToString`: nothing for no items, the item itself for one, at least a separator for two or more |
| Texto.UnirAgregar | app/src/main/java/com/app/contactos/AgregarContactoActivity.kt:294 | one more item at the end adds the separator and then that item to the joined text |
| Texto.UnirVacio | app/src/main/java/com/app/contactos/AgregarContactoActivity.kt:294-296 | the joined names are empty exactly when there are none or one empty name |
| Texto.MenorIgualReflexivo | app/src/main/java/com/app/contactos/database/ContactoDao.kt:36-37 | the BINARY collation that ORDER BY uses is reflexive |
| Texto.MenorIgualTotal | app/src/main/java/com/app/contactos/database/ContactoDao.kt:36-37 | any two names are comparable under the collation |
| Texto.MenorIgualTransitivo | app/src/main/java/com/app/contactos/database/ContactoDao.kt:36-37 | the collation is transitive |
| Texto.MenorIgualAntisimetrico | app/src/main/java/com/app/contactos/database/ContactoDao.kt:36-37 | two names ordered both ways are equal, so the collation is a total order |
| Sql.LikePorcentajeTodo | app/src/main/java/com/app/contactos/database/ContactoDao.kt:42-43 | the pattern `%` matches every text |
| Sql.LikePrefijo | app/src/main/java/com/app/contactos/database/ContactoDao.kt:42-43 | for a wildcard-free `q`, `s LIKE q%` holds exactly when `s` starts with `q` up to ASCII case |
| Sql.LikeSufijo | app/src/main/java/com/app/contactos/database/ContactoDao.kt:42-43 | `s LIKE %p` holds exactly when some suffix of `s` matches `p` |
| Sql.LikeContiene | app/src/main/java/com/app/contactos/database/ContactoDao.kt:42-43 | for a wildcard-free `q`, `s LIKE %q%` holds exactly when `q` occurs in `s` up to ASCII case |
| Sql.LikeDosPorcentajes | app/src/main/java/com/app/contactos/database/ContactoDao.kt:42-43 | the empty search pattern `%%` matches every text |
| Sql.Filtrar | app/src/main/java/com/app/contactos/database/ContactoDao.kt:42-43 | WHERE keeps exactly the rows satisfying the condition, never adding or repeating a row |
| Sql.FiltrarSinRepetidos | app/src/main/java/com/app/contactos/database/ContactoDao.kt:42-43 | WHERE over distinct rows returns distinct rows |
| Sql.FiltrarTodos | app/src/main/java/com/app/contactos/database/ContactoDao.kt:42-43 | a condition every row satisfies filters nothing out |
| Sql.FiltrarNinguno | app/src/main/java/com/app/contactos/database/ContactoDao.kt:58-59 | a condition no row satisfies yields no row |
| Sql.OrdenarPor | app/src/main/java/com/app/contactos/database/ContactoDao.kt:36-37 | ORDER BY returns a permutation of the rows it sorts |
| Sql.OrdenarPorOrdena | app/src/main/java/com/app/contactos/database/ContactoDao.kt:36-37 | the ORDER BY result is ascending on the key and keeps rows distinct |
| Sql.ClavesOrdenadas | app/src/main/java/com/app/contactos/database/ContactoDao.kt:48-49 | the table's keys, each once, in strictly ascending rowid order |
| Sql.Filas | app/src/main/java/com/app/contactos/database/ContactoDao.kt:48-49 | a scan without ORDER BY yields every stored row, one per key |
| Sql.FilasSinRepetidos | app/src/main/java/com/app/contactos/database/ContactoDao.kt:48-49 | rows stored under their own id scan to distinct rows |
| Modelo.ValoresPorDefecto | app/src/main/java/com/app/contactos/model/Contacto.kt:20-30 | a contact built from the required fields has id 0 and empty linkedin and website |
| Modelo.AlBorrarCategoria | app/src/main/java/com/app/contactos/model/Contacto.kt:13-18 | deleting category `k` clears exactly the references to `k` and changes no other field |
| Modelo.IgualdadPorCampos | app/src/main/java/com/app/contactos/model/Contacto.kt:20-30 | data-class equality: two contacts are equal exactly when all seven fields are |
| Tablas.Vacia | app/src/main/java/com/app/contactos/database/ContactosDatabase.kt:17-22 | a new database file has four empty tables and satisfies the invariant |
| Tablas.IdAsignado | app/src/main/java/com/app/contactos/model/Contacto.kt:21-22 | an autogenerated id of 0 takes one more than the largest key ever used; any other id is kept |
| Tablas.Contador | app/src/main/java/com/app/contactos/model/Contacto.kt:21-22 | the AUTOINCREMENT counter after an insert is the larger of its old value and the key used |
| Tablas.IdGeneradoEsNuevo | app/src/main/java/com/app/contactos/model/Contacto.kt:21-22 | a generated key is larger than every stored key, so it names no stored row |
| ContactoDao.Insertar | app/src/main/java/com/app/contactos/database/ContactoDao.kt:21-22 | `insert` with REPLACE: never fails for a valid category reference; stores the row under the assigned id, replacing any row there, returns that id and changes nothing else |
| ContactoDao.Actualizar | app/src/main/java/com/app/contactos/database/ContactoDao.kt:26-27 | `update`: a missing id is a successful no-op; otherwise the row becomes the argument unless its category reference is invalid; keys and counter unchanged |
| ContactoDao.Eliminar | app/src/main/java/com/app/contactos/database/ContactoDao.kt:31-32 | `delete`: exactly the row with the argument's id goes; everything else stays |
| ContactoDao.InsertarIgnorando | app/src/main/java/com/app/contactos/database/ContactoDao.kt:62-63 | one IGNORE row: a taken key is skipped, and no stored row is ever changed |
| ContactoDao.TodosOrdenados | app/src/main/java/com/app/contactos/database/ContactoDao.kt:36-37 | `getAllContactos`: every stored contact once, sorted by name |
| ContactoDao.Buscar | app/src/main/java/com/app/contactos/database/ContactoDao.kt:42-43 | `searchContactos`: exactly the stored contacts whose name or phone matches the pattern, sorted by name, each row once in a valid database |
| ContactoDao.TodosComoLista | app/src/main/java/com/app/contactos/database/ContactoDao.kt:68-69 | `getTodosComoLista` and `getAllContactosForBackup`: every stored contact once |
| ContactoDao.PorId | app/src/main/java/com/app/contactos/database/ContactoDao.kt:54-55 | `getContactoById`: the row with that key, or null exactly when there is none |
| ContactoDao.PorCategoria | app/src/main/java/com/app/contactos/database/ContactoDao.kt:58-59 | `getContactosPorCategoria`: exactly the stored contacts in that category, sorted by name, each row once in a valid database |
| ContactoDao.InsertarPreservaValida | app/src/main/java/com/app/contactos/database/ContactoDao.kt:21-22 | a successful `insert` keeps the database invariant |
| ContactoDao.InsertarIdNuevo | app/src/main/java/com/app/contactos/database/ContactoDao.kt:21-22 | an unsaved contact gets an id larger than every stored id and adds a row; an explicit stored id replaces that row |
| ContactoDao.ActualizarPreservaValida | app/src/main/java/com/app/contactos/database/ContactoDao.kt:26-27 | a successful `update` keeps the invariant |
| ContactoDao.EliminarPreservaValida | app/src/main/java/com/app/contactos/database/ContactoDao.kt:31-32 | `delete` keeps the invariant |
| ContactoDao.EliminarSoloPorClave | app/src/main/java/com/app/contactos/database/ContactoDao.kt:31-32 | `delete` depends only on the primary key of its argument |
| ContactoDao.InsertarVariosConserva | app/src/main/java/com/app/contactos/database/ContactoDao.kt:62-63 | `insertarVarios` keeps the invariant, never changes or removes a stored row, and touches no other table |
| ContactoDao.InsertarVariosNuevos | app/src/main/java/com/app/contactos/database/ContactoDao.kt:62-63 | a batch of unsaved contacts with valid references is stored in full, row `i` under id counter+1+i, and no other key appears |
| ContactoDao.InsertarVariosFalla | app/src/main/java/com/app/contactos/database/ContactoDao.kt:62-63 | a batch of unsaved contacts fails exactly when some row names a category that is not stored |
| CategoriaDao.Insertar | app/src/main/java/com/app/contactos/database/CategoriaDao.kt:19-20 | `insert` with IGNORE: a taken id leaves the database as it was, otherwise the category is added under the assigned id; other tables unchanged |
| CategoriaDao.TodasOrdenadas | app/src/main/java/com/app/contactos/database/CategoriaDao.kt:25-26 | `getAllCategorias`: every stored category once, sorted by name |
| CategoriaDao.InsertarPreservaValida | app/src/main/java/com/app/contactos/database/CategoriaDao.kt:19-20 | the category insert keeps the invariant |
| CategoriaDao.InsertarSinGuardarAgrega | app/src/main/java/com/app/contactos/database/CategoriaDao.kt:19-20 | an unsaved category always adds exactly one row |
| CategoriaDao.InsertarIdempotente | app/src/main/java/com/app/contactos/database/CategoriaDao.kt:19-20 | inserting a category with its own id twice is inserting it once |
| GrupoDao.CrearGrupo | app/src/main/java/com/app/contactos/database/GrupoDao.kt:16-17 | `crearGrupo` with IGNORE: a taken id changes nothing, otherwise the group is added under the assigned id; other tables unchanged |
| GrupoDao.AgregarEnlace | app/src/main/java/com/app/contactos/database/GrupoDao.kt:22-23 | `addContactoAGrupo` with IGNORE: the pair is present afterwards, a repeated pair changes nothing, and only the link table changes |
| GrupoDao.QuitarEnlace | app/src/main/java/com/app/contactos/database/GrupoDao.kt:25-26 | `removeContactoDeGrupo`: exactly that pair is removed and only the link table changes |
| GrupoDao.LimpiarGruposDeContacto | app/src/main/java/com/app/contactos/database/GrupoDao.kt:32-33 | `limpiarGruposDeContacto(x)` deletes the GROUP with id `x` and leaves the link table alone |
| GrupoDao.TodosLosGrupos | app/src/main/java/com/app/contactos/database/GrupoDao.kt:19-20 | `getTodosLosGrupos`: every stored group once, sorted by name |
| GrupoDao.GruposEnlazados | app/src/main/java/com/app/contactos/database/GrupoDao.kt:28-30 | exactly the stored groups linked to the contact, each once in a valid database |
| GrupoDao.GruposDeUnContacto | app/src/main/java/com/app/contactos/database/GrupoDao.kt:28-30 | `getGruposDeUnContacto`: null exactly for a missing contact; otherwise that contact with exactly its linked stored groups, each once in a valid database |
| GrupoDao.CrearGrupoPreservaValida | app/src/main/java/com/app/contactos/database/GrupoDao.kt:16-17 | `crearGrupo` keeps the invariant |
| GrupoDao.SoloEnlacesPreservaValida | app/src/main/java/com/app/contactos/database/GrupoDao.kt:22-26 | a write that only changes links keeps the invariant |
| GrupoDao.LimpiarPreservaValida | app/src/main/java/com/app/contactos/database/GrupoDao.kt:32-33 | deleting a group keeps the invariant |
| GrupoDao.EscriturasPreservanValida | app/src/main/java/com/app/contactos/database/GrupoDao.kt:16-33 | every write of the group DAO keeps the invariant |
| GrupoDao.QuitarDeshaceAgregar | app/src/main/java/com/app/contactos/database/GrupoDao.kt:22-26 | adding a new pair and removing it again restores the database |
| GrupoDao.LimpiarDejaEnlaces | app/src/main/java/com/app/contactos/database/GrupoDao.kt:32-33 | after deleting group `x` its link rows remain, but no contact's groups include `x` |
| BaseDeDatos.Sembrada | app/src/main/java/com/app/contactos/database/ContactosDatabase.kt:48-62 | the seeded database satisfies the invariant |
| BaseDeDatos.SembradaIds | app/src/main/java/com/app/contactos/database/ContactosDatabase.kt:48-62 | the seed stores categories 1 to 4 (Familia, Trabajo, Amigos, General) and groups 1 to 3, and no contact or link |
| BaseDeDatos.ContactosDatabase.constructor | app/src/main/java/com/app/contactos/database/ContactosDatabase.kt:72-83 | the opened database holds the given valid tables and no write has been made |
| BaseDeDatos.ContactosDatabase.Insert | app/src/main/java/com/app/contactos/database/ContactoDao.kt:21-22 | the tables change as `ContactoDao.Insertar` says, the row id or the failure is returned, and one call is logged |
| BaseDeDatos.ContactosDatabase.Update | app/src/main/java/com/app/contactos/database/ContactoDao.kt:26-27 | the tables change as `ContactoDao.Actualizar` says, and one call is logged |
| BaseDeDatos.ContactosDatabase.Delete | app/src/main/java/com/app/contactos/database/ContactoDao.kt:31-32 | the tables change as `ContactoDao.Eliminar` says, and one call is logged |
| BaseDeDatos.ContactosDatabase.InsertarVarios | app/src/main/java/com/app/contactos/database/ContactoDao.kt:62-63 | the row-by-row loop commits what `ContactoDao.InsertarVarios` says, or leaves the tables untouched on failure |
| BaseDeDatos.ContactosDatabase.InsertCategoria | app/src/main/java/com/app/contactos/database/CategoriaDao.kt:19-20 | the tables change as `CategoriaDao.Insertar` says, and one call is logged |
| BaseDeDatos.ContactosDatabase.CrearGrupo | app/src/main/java/com/app/contactos/database/GrupoDao.kt:16-17 | the tables change as `GrupoDao.CrearGrupo` says, and one call is logged |
| BaseDeDatos.ContactosDatabase.AddContactoAGrupo | app/src/main/java/com/app/contactos/database/GrupoDao.kt:22-23 | the tables change as `GrupoDao.AgregarEnlace` says, and one call is logged |
| BaseDeDatos.ContactosDatabase.RemoveContactoDeGrupo | app/src/main/java/com/app/contactos/database/GrupoDao.kt:25-26 | the tables change as `GrupoDao.QuitarEnlace` says, and one call is logged |
| BaseDeDatos.ContactosDatabase.LimpiarGruposDeContacto | app/src/main/java/com/app/contactos/database/GrupoDao.kt:32-33 | the tables change as `GrupoDao.LimpiarGruposDeContacto` says, and one call is logged |
| Repositorio.PatronBusqueda | app/src/main/java/com/app/contactos/repository/ContactosRepository.kt:37-39 | the pattern is the query with one `%` added on each side |
| Repositorio.BuscarPorSubcadena | app/src/main/java/com/app/contactos/repository/ContactosRepository.kt:37-39 | for a query without `%` or `_`, the search returns exactly the stored contacts whose name or phone contains it, ignoring ASCII case |
| Repositorio.BuscarVacioEsTodos | app/src/main/java/com/app/contactos/repository/ContactosRepository.kt:37-39 | searching for "" returns the full sorted list |
| Repositorio.RestaurarPreservaValida | app/src/main/java/com/app/contactos/repository/ContactosRepository.kt:80-84 | restoring keeps the invariant, changes only the contacts table, and never lowers its counter |
| Repositorio.RestaurarConserva | app/src/main/java/com/app/contactos/repository/ContactosRepository.kt:80-84 | a stored row named by no backup entry survives the restore unchanged |
| Repositorio.RestaurarSobrescribe | app/src/main/java/com/app/contactos/repository/ContactosRepository.kt:80-84 | after a successful restore, the last entry with a given non-zero id is what is stored under that id |
| Repositorio.RestaurarFalla | app/src/main/java/com/app/contactos/repository/ContactosRepository.kt:80-84 | a restore throws exactly when some entry names a category that is not stored |
| Repositorio.TelefonosDe | app/src/main/java/com/app/contactos/repository/ContactosRepository.kt:98 | the snapshot is exactly the set of stored phones |
| Repositorio.ContactoImportado | app/src/main/java/com/app/contactos/repository/ContactosRepository.kt:124 | an imported contact is unsaved, with the row's name, the cleaned phone, email "", category 1 and empty links |
| Repositorio.Nuevos | app/src/main/java/com/app/contactos/repository/ContactosRepository.kt:117-126 | the loop keeps at most one contact per row |
| Repositorio.NuevosPaso | app/src/main/java/com/app/contactos/repository/ContactosRepository.kt:117-126 | one more row read: the list gains that row's contact exactly when the row passes the test |
| Repositorio.Convertir | app/src/main/java/com/app/contactos/repository/ContactosRepository.kt:124 | one converted contact per row, in order |
| Repositorio.NuevosEsFiltrar | app/src/main/java/com/app/contactos/repository/ContactosRepository.kt:117-126 | the import list is the rows that pass the test, converted in cursor order |
| Repositorio.NuevosSii | app/src/main/java/com/app/contactos/repository/ContactosRepository.kt:117-126 | a contact is imported exactly when some row passes the test and converts to it; its phone is non-blank, `\s`-free and not in the snapshot |
| Repositorio.DuplicadosEnElLote | app/src/main/java/com/app/contactos/repository/ContactosRepository.kt:117-126 | two device rows with the same new phone are both imported, because the snapshot is never updated |
| Repositorio.ImportarConserva | app/src/main/java/com/app/contactos/repository/ContactosRepository.kt:96-132 | the import keeps the invariant, never changes or removes a stored contact, touches no other table, and on failure changes nothing |
| Repositorio.NuevosSinGuardarCategoria1 | app/src/main/java/com/app/contactos/repository/ContactosRepository.kt:124 | every contact the import builds is unsaved and in category 1 |
| Repositorio.LoteCategoria1 | app/src/main/java/com/app/contactos/repository/ContactosRepository.kt:129-131 | a non-empty batch fails exactly when category 1 is not stored |
| Repositorio.ImportarFalla | app/src/main/java/com/app/contactos/repository/ContactosRepository.kt:96-132 | with an open cursor the import throws exactly when some row was kept and category 1 is not stored |
| Repositorio.ImportarNuevos | app/src/main/java/com/app/contactos/repository/ContactosRepository.kt:96-132 | a successful import stores the kept rows under the ids after the counter, in cursor order, and adds no other key |
| Repositorio.AsociarGrupos | app/src/main/java/com/app/contactos/repository/ContactosRepository.kt:151-160 | after the association the links are the old ones plus the contact with each requested group; only links change |
| Repositorio.AsociarGruposIdempotente | app/src/main/java/com/app/contactos/repository/ContactosRepository.kt:151-160 | associating twice is associating once, and the order of the group ids does not matter |
| Repositorio.LlamadasAsociar | app/src/main/java/com/app/contactos/repository/ContactosRepository.kt:157-159 | one `addContactoAGrupo(contacto, g)` per requested group, in order |
| Repositorio.ContactosRepository.InsertarContacto | app/src/main/java/com/app/contactos/repository/ContactosRepository.kt:44-46 | exactly one `insert`, whose row id or failure is returned |
| Repositorio.ContactosRepository.ActualizarContacto | app/src/main/java/com/app/contactos/repository/ContactosRepository.kt:51-53 | exactly one `update` |
| Repositorio.ContactosRepository.EliminarContacto | app/src/main/java/com/app/contactos/repository/ContactosRepository.kt:58-60 | exactly one `delete` |
| Repositorio.ContactosRepository.InsertarCategoria | app/src/main/java/com/app/contactos/repository/ContactosRepository.kt:65-67 | exactly one category `insert` |
| Repositorio.ContactosRepository.CrearGrupo | app/src/main/java/com/app/contactos/repository/ContactosRepository.kt:138-140 | exactly one `crearGrupo` |
| Repositorio.ContactosRepository.RestaurarContactos | app/src/main/java/com/app/contactos/repository/ContactosRepository.kt:80-84 | the tables and outcome agree with `Restaurar`; only `insert` calls are made, one per entry in order when none throws |
| Repositorio.ContactosRepository.ImportarDesdeDispositivo | app/src/main/java/com/app/contactos/repository/ContactosRepository.kt:96-132 | the loop builds the list `Nuevos` defines, and the tables and outcome agree with `Importar` |
| Repositorio.ContactosRepository.ActualizarGruposDeContacto | app/src/main/java/com/app/contactos/repository/ContactosRepository.kt:151-160 | one link call per group id in order; links are only added |
| VCard.ExportToVCard | app/src/main/java/com/app/contactos/utils/VCardUtils.kt:15-55 | the builder loop returns the concatenated blocks of the list |
| VCard.AgregarBloque | app/src/main/java/com/app/contactos/utils/VCardUtils.kt:18-52 | one iteration appends exactly the contact's block to the builder |
| VCard.VCardConcatenar | app/src/main/java/com/app/contactos/utils/VCardUtils.kt:17-53 | exporting a concatenation is concatenating the exports |
| VCard.VCardDeUno | app/src/main/java/com/app/contactos/utils/VCardUtils.kt:17-53 | the export of one contact is its block |
| VCard.LineasDe | app/src/main/java/com/app/contactos/utils/VCardUtils.kt:18-52 | BEGIN, VERSION and FN first; TEL only for a non-blank phone; EMAIL for a non-blank email or `EMAIL;` for null; then Linkedin, website, END and an empty line |
| VCard.BloqueEnLineas | app/src/main/java/com/app/contactos/utils/VCardUtils.kt:18-52 | the block is those lines, each ended by a line feed |
| VCard.VCardEnLineas | app/src/main/java/com/app/contactos/utils/VCardUtils.kt:15-55 | the export is the lines of every block, each ended by a line feed |
| VCard.TelefonoSii | app/src/main/java/com/app/contactos/utils/VCardUtils.kt:25-27 | the telephone line is in the block exactly when the phone is not blank |
| VCard.LeerTerminar | app/src/main/java/com/app/contactos/utils/VCardUtils.kt:15-55 | lines without line feeds, each terminated, read back as exactly those lines |
| VCard.LeerVCard | app/src/main/java/com/app/contactos/utils/VCardUtils.kt:15-55 | when no field holds a line feed, the export reads back as exactly its blocks' lines with nothing after |
| VCard.NombresDeBloque | app/src/main/java/com/app/contactos/utils/VCardUtils.kt:22 | a block has exactly one FN line, carrying the name |
| VCard.NombresAplanar | app/src/main/java/com/app/contactos/utils/VCardUtils.kt:17-53 | the FN values of the export's lines are the names in list order |
| VCard.NombresExportados | app/src/main/java/com/app/contactos/utils/VCardUtils.kt:15-55 | reading the export back gives the contacts' names in list order, when no field holds a line feed |
| Validacion.IsNombreValido | app/src/main/java/com/app/contactos/utils/ValidationUtils.kt:13-15 | valid exactly when some character is not whitespace |
| Validacion.IsTelefonoValido | app/src/main/java/com/app/contactos/utils/ValidationUtils.kt:20-22 | valid exactly when some character is not whitespace |
| Validacion.IsEmailValido | app/src/main/java/com/app/contactos/utils/ValidationUtils.kt:27-30 | a blank email is valid; any other is valid exactly when it matches the pattern |
| Validacion.ValidoSiiRecorteNoVacio | app/src/main/java/com/app/contactos/utils/ValidationUtils.kt:13-22 | a name or phone is valid exactly when trimming it leaves something |
| VistaContactos.ListaOrdenada | app/src/main/java/com/app/contactos/viewmodel/ContactosViewModel.kt:31-37 | whatever the query, the list shows only stored contacts, sorted by name |
| VistaContactos.ListaSinConsulta | app/src/main/java/com/app/contactos/viewmodel/ContactosViewModel.kt:31-37 | the empty query shows every stored contact exactly once |
| VistaContactos.ListaSii | app/src/main/java/com/app/contactos/viewmodel/ContactosViewModel.kt:31-37 | for a wildcard-free query, shown exactly when stored and the name or phone contains the query up to ASCII case |
| VistaContactos.ContieneEspacio | app/src/main/java/com/app/contactos/viewmodel/ContactosViewModel.kt:42-44 | a text contains the query " " exactly when it has a space |
| VistaContactos.ListaEspacio | app/src/main/java/com/app/contactos/viewmodel/ContactosViewModel.kt:42-44 | the query is not trimmed: " " shows exactly the contacts with a space in the name or phone |
| VistaContactos.Desenlace | app/src/main/java/com/app/contactos/viewmodel/ContactosViewModel.kt:64-75 | EXITO exactly when the import returned, ERROR exactly when it threw |
| VistaContactos.TrazaImportar | app/src/main/java/com/app/contactos/viewmodel/ContactosViewModel.kt:64-75 | an import appends CARGANDO then its outcome and keeps the status history well formed |
| VistaContactos.TrazaResetear | app/src/main/java/com/app/contactos/viewmodel/ContactosViewModel.kt:78-80 | a reset appends VACIO and keeps the history well formed |
| VistaContactos.DesenlaceTrasCargando | app/src/main/java/com/app/contactos/viewmodel/ContactosViewModel.kt:64-80 | in any well-formed history, each EXITO or ERROR comes right after CARGANDO |
| VistaContactos.ContactosViewModel.constructor | app/src/main/java/com/app/contactos/viewmodel/ContactosViewModel.kt:22-25 | the query starts empty and the status at VACIO |
| VistaContactos.ContactosViewModel.BuscarContacto | app/src/main/java/com/app/contactos/viewmodel/ContactosViewModel.kt:42-44 | the query becomes `q`, the shown list becomes `Lista` for it, and the import status does not change |
| VistaContactos.ContactosViewModel.EliminarContacto | app/src/main/java/com/app/contactos/viewmodel/ContactosViewModel.kt:49-51 | exactly one repository delete of that contact |
| VistaContactos.ContactosViewModel.GetContactosParaExportar | app/src/main/java/com/app/contactos/viewmodel/ContactosViewModel.kt:56-58 | the list currently shown, filtered by the query |
| VistaContactos.ContactosViewModel.ImportarContactosDelDispositivo | app/src/main/java/com/app/contactos/viewmodel/ContactosViewModel.kt:64-75 | posts CARGANDO and then the import's outcome; the tables agree with `Importar` |
| VistaContactos.ContactosViewModel.ResetearEstadoImportacion | app/src/main/java/com/app/contactos/viewmodel/ContactosViewModel.kt:78-80 | posts VACIO whatever the status was |
| EdicionContacto.IdGuardado | app/src/main/java/com/app/contactos/viewmodel/AgregarContactoViewModel.kt:78-87 | the groups are linked to the next generated id for a new contact, or to the contact's own id |
| EdicionContacto.LlamadasGuardar | app/src/main/java/com/app/contactos/viewmodel/AgregarContactoViewModel.kt:75-91 | the save makes one insert or update first, and after it only link calls |
| EdicionContacto.GuardarPorCasos | app/src/main/java/com/app/contactos/viewmodel/AgregarContactoViewModel.kt:75-91 | case by case: a failing write stops the save, which returns its exception; otherwise its id is linked to each group |
| EdicionContacto.GuardarSoloAgregaEnlaces | app/src/main/java/com/app/contactos/viewmodel/AgregarContactoViewModel.kt:75-91 | saving keeps the invariant, only adds links, and on failure changes nothing |
| EdicionContacto.GuardarFalla | app/src/main/java/com/app/contactos/viewmodel/AgregarContactoViewModel.kt:88-90 | the save throws exactly when the write stores a row with an unstored category; after a failure no link call is made |
| EdicionContacto.GuardarNuevo | app/src/main/java/com/app/contactos/viewmodel/AgregarContactoViewModel.kt:78-82 | a new contact is stored under a fresh id, and exactly that id is linked to each requested group |
| EdicionContacto.GuardarExistente | app/src/main/java/com/app/contactos/viewmodel/AgregarContactoViewModel.kt:83-87 | a stored contact is overwritten under its id; a missing one is not written but its id is still linked |
| EdicionContacto.GrupoNuevo | app/src/main/java/com/app/contactos/viewmodel/AgregarContactoViewModel.kt:93-98 | a blank name changes nothing |
| EdicionContacto.CrearNuevoGrupoAgrega | app/src/main/java/com/app/contactos/viewmodel/AgregarContactoViewModel.kt:93-98 | a name that is not blank adds exactly one group, with the next id and that name |
| EdicionContacto.AgregarContactoViewModel.constructor | app/src/main/java/com/app/contactos/viewmodel/AgregarContactoViewModel.kt:21-38 | no save outcome and no observed contact yet |
| EdicionContacto.AgregarContactoViewModel.InsertarContacto | app/src/main/java/com/app/contactos/viewmodel/AgregarContactoViewModel.kt:44-51 | one insert; posts success, or the insert's failure with the tables unchanged |
| EdicionContacto.AgregarContactoViewModel.ActualizarContacto | app/src/main/java/com/app/contactos/viewmodel/AgregarContactoViewModel.kt:56-63 | one update; posts success, or the update's failure with the tables unchanged |
| EdicionContacto.AgregarContactoViewModel.GetContactoById | app/src/main/java/com/app/contactos/viewmodel/AgregarContactoViewModel.kt:68-71 | returns the row with that id, and the observed groups become that contact's groups |
| EdicionContacto.AgregarContactoViewModel.GuardarContactoYAsociarGrupos | app/src/main/java/com/app/contactos/viewmodel/AgregarContactoViewModel.kt:75-91 | the tables, the posted outcome and the call log agree with `GuardarYAsociar` and `LlamadasGuardar` |
| EdicionContacto.AgregarContactoViewModel.CrearNuevoGrupo | app/src/main/java/com/app/contactos/viewmodel/AgregarContactoViewModel.kt:93-98 | one `crearGrupo` for a name that is not blank, no call otherwise |
| FormularioContacto.IdDesdeExtra | app/src/main/java/com/app/contactos/AgregarContactoActivity.kt:59 | no id exactly when the extra is absent or -1; otherwise the extra's value |
| FormularioContacto.BlancoRecortado | app/src/main/java/com/app/contactos/AgregarContactoActivity.kt:125-149 | trimming does not change whether an input is blank |
| FormularioContacto.DecidirOrden | app/src/main/java/com/app/contactos/AgregarContactoActivity.kt:138-149 | name, then phone, then email are checked; the first failure is reported; otherwise the contact is saved |
| FormularioContacto.GuardarDe | app/src/main/java/com/app/contactos/AgregarContactoActivity.kt:152-160 | a save carries the record built from the trimmed inputs, with non-blank name and phone |
| FormularioContacto.RecortadoCampos | app/src/main/java/com/app/contactos/AgregarContactoActivity.kt:125-130 | every input is trimmed; a blank email becomes "" |
| FormularioContacto.DecidirRegistro | app/src/main/java/com/app/contactos/AgregarContactoActivity.kt:152-160 | the record has the extra's id or 0, trimmed texts, the email as `Some` even when empty, and the selected category |
| FormularioContacto.DecidirRecortado | app/src/main/java/com/app/contactos/AgregarContactoActivity.kt:125-130 | already-trimmed input leads to the same decision |
| FormularioContacto.GuardarSinCategoria | app/src/main/java/com/app/contactos/AgregarContactoActivity.kt:152-167 | with an unstored category (-1 by default), the save throws and leaves no trace unless it edits a missing contact |
| FormularioContacto.Quitar | app/src/main/java/com/app/contactos/AgregarContactoActivity.kt:248 | `remove`: the id goes, every other id keeps its membership |
| FormularioContacto.Alternar | app/src/main/java/com/app/contactos/AgregarContactoActivity.kt:243-250 | checking adds the id at the end if absent, unchecking removes it; no other id changes and no id repeats |
| FormularioContacto.AlternarDeshace | app/src/main/java/com/app/contactos/AgregarContactoActivity.kt:243-250 | checking then unchecking a new id restores the selection |
| FormularioContacto.QuitarAusente | app/src/main/java/com/app/contactos/AgregarContactoActivity.kt:248 | removing an absent id changes nothing |
| FormularioContacto.QuitarUltimo | app/src/main/java/com/app/contactos/AgregarContactoActivity.kt:246-248 | removing an id just added at the end undoes the addition |
| FormularioContacto.NombresDe | app/src/main/java/com/app/contactos/AgregarContactoActivity.kt:294 | one name per group, in order |
| FormularioContacto.TextoSinSeleccion | app/src/main/java/com/app/contactos/AgregarContactoActivity.kt:291-297 | with no listed group selected, the summary is "Ninguno" |
| FormularioContacto.TextoConSeleccion | app/src/main/java/com/app/contactos/AgregarContactoActivity.kt:291-297 | with a named selected group, the summary joins the names of exactly the listed groups whose id is selected, in list order: all but the last joined, then ", " and the last |
| FormularioContacto.NombreGrupoDialogo | app/src/main/java/com/app/contactos/AgregarContactoActivity.kt:272-284 | a name is passed on exactly when the input is not blank, and it is the trimmed input |
| FormularioContacto.AgregarContactoActivity.constructor | app/src/main/java/com/app/contactos/AgregarContactoActivity.kt:30-59 | the extra is decoded; no category selected (-1), no group selected, no error |
| FormularioContacto.AgregarContactoActivity.ObservarCategorias | app/src/main/java/com/app/contactos/AgregarContactoActivity.kt:173-193 | the category list becomes the view-model's; every other field is unchanged |
| FormularioContacto.AgregarContactoActivity.ObservarGrupos | app/src/main/java/com/app/contactos/AgregarContactoActivity.kt:219-221 | the group list becomes the view-model's; every other field is unchanged |
| FormularioContacto.AgregarContactoActivity.AlSeleccionarCategoria | app/src/main/java/com/app/contactos/AgregarContactoActivity.kt:207-209 | the selected id becomes the picked category's, and is unchanged while the list is empty; every other field is unchanged |
| FormularioContacto.AgregarContactoActivity.GuardarContacto | app/src/main/java/com/app/contactos/AgregarContactoActivity.kt:124-168 | a rejection sets the error and makes no call; a save runs `GuardarYAsociar` with the selected groups; the form's lists, selection and summary and the view-model's group list are unchanged |
| FormularioContacto.AgregarContactoActivity.AlMarcarGrupo | app/src/main/java/com/app/contactos/AgregarContactoActivity.kt:243-250 | the selection becomes `Alternar` of the group at that position, and stays free of repeats; every other field is unchanged |
| FormularioContacto.AgregarContactoActivity.ActualizarTextoGruposSeleccionados | app/src/main/java/com/app/contactos/AgregarContactoActivity.kt:291-297 | the summary text becomes `TextoGrupos` of the current list and selection; every other field is unchanged |
| FormularioContacto.AgregarContactoActivity.CrearGrupoDesdeDialogo | app/src/main/java/com/app/contactos/AgregarContactoActivity.kt:272-284 | creates the group with the trimmed name exactly when the input is not blank, logging that one write; otherwise no write |
| Principal.UrlWebsite | app/src/main/java/com/app/contactos/MainActivity.kt:236-244 | an address with a scheme is kept; any other gets "http://" in front |
| Principal.UrlWebsiteNormaliza | app/src/main/java/com/app/contactos/MainActivity.kt:236-244 | the opened address always has a scheme, and normalising twice is normalising once |
| Principal.UrlWebsiteConserva | app/src/main/java/com/app/contactos/MainActivity.kt:236-244 | the stored address is never altered, only prefixed |
| Principal.UrlLinkedin | app/src/main/java/com/app/contactos/MainActivity.kt:231-234 | the LinkedIn profile prefix followed by the stored profile path |
| Principal.LinkedinComoEnVCard | app/src/main/java/com/app/contactos/MainActivity.kt:232 | the address a click opens is the one on the contact's vCard Linkedin line |
| Principal.Exportar | app/src/main/java/com/app/contactos/MainActivity.kt:91-110 | nothing is written exactly when the list is null or empty; otherwise the list's vCard text |
| Principal.ExportarEmpieza | app/src/main/java/com/app/contactos/MainActivity.kt:91-110 | a written file starts with "BEGIN:VCARD" and a line feed |
| Principal.ExportarNombres | app/src/main/java/com/app/contactos/MainActivity.kt:91-110 | a written file, read back, names the exported contacts in list order |
| Principal.MainActivity.ExportarVCard | app/src/main/java/com/app/contactos/MainActivity.kt:91-110 | writes `Exportar` of the view-model's current list |

## Left out

- `BackupUtils` (Gson JSON encoding and file streams) is not part of this model. The restore is modelled from the decoded list on.
- `ContactosAdapter`: view binding and the diff callback are UI. The contact equality it relies on is `Modelo.IgualdadPorCampos`.
- `ContactosDatabase.getDatabase`: the singleton, the builder and the coroutine that runs the seed. The seed's result is `BaseDeDatos.Sembrada`, and the database object takes its initial tables as a parameter.
- LiveData and coroutines: the model computes the value an observer would see next. It does not capture delivery order, or `null` before the first emission.
- Overlapping imports are not modelled. Each import call runs in its own coroutine, and the observer resets the status to VACIO after every outcome. Two overlapping imports can therefore post CARGANDO, CARGANDO, EXITO, VACIO, EXITO. `VistaContactos.DesenlaceTrasCargando` holds only when imports do not overlap.
- `Principal.MainActivity.ExportarVCard`: `getContactosParaExportar` is the current list, modelled as `Some`. The export guard's `null` case is covered by `Principal.Exportar` alone.
- The device query (`ContentResolver`, cursor column indexes, `getString`) is given as the data type `Cursor`. Its rows are name and number strings, never null, and a query that throws is the `Fallido` case.
- `Patterns.EMAIL_ADDRESS` is an Android framework regular expression. It is the parameter `patron` of `Validacion.IsEmailValido` and of the form's save.
- UI effects are not modelled: toasts, error texts, dialogs, intents, `openUrl`, calls and messages, and the file write itself. The model states what each handler passes on.
- Kotlin `Int` and `Long` widths are not modelled. Ids are unbounded integers, so `nuevoId.toInt()` never truncates here.
- `FormularioContacto.AgregarContactoActivity.ObservarCategorias`: it does not model pre-selecting the edited contact's category. In the app, `setSelection(posicion)` fires the spinner's `onItemSelected` listener. That listener sets `categoriaSeleccionadaId` to the contact's stored category, which the save then writes. In the model, that listener call is a following `AlSeleccionarCategoria(posicion)`, which the caller must make. Without it, the model does not tie an edit's saved category to the stored one.
- `contactoExistente` loading and field filling: filling the form in edit mode is UI. The save uses `contactoId`, as the code does.
- `setupGroupSelection`: the `gruposDelContacto` observer that replaces the selection with the edited contact's groups is not modelled.
- `EdicionContacto.AgregarContactoViewModel.GetContactoById`: it returns the row value, not a LiveData that keeps tracking later changes.
