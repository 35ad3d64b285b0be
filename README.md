# Barbershop booking system — a Dafny model

This project models the logic of a barbershop booking web system: an Express/MongoDB backend
whose controllers manage appointments (citas), clients (clientes), services (servicios), the
opening-hours configuration (horarios) and a legacy user table (usuarios), and the React pages
through which clients book and review their appointments and the administrator manages the
agenda, the client directory, the service catalogue and the schedule.

## Layout

- `wrappers.dfy`, `listas.dfy`, `texto.dfy`, `orden.dfy`: the JavaScript primitives the code relies
  on, stated once: `Option`/`Result`, `filter`, `sort` by a numeric key, de-duplication through a
  `Set`, `trim`, `toLowerCase`/`toUpperCase`, `split`/`join`, `parseInt`, `String(n)` and
  `padStart(2, "0")`, and the (fecha, hora) order the listings sort by.
- `almacen.dfy`: the document store as one class `Almacen.Db` whose fields are the collections
  (clients with their embedded appointment lists, the global appointments keyed by `citaId`, the
  per-day slot documents, the two blocked-days documents, services, legacy users), together with
  the MongoDB update operators the controllers use (`$pull`, `$addToSet`, the positional `$set` on
  an embedded appointment, `$pull` of an embedded appointment) as functions with their own laws,
  and the mirror invariant tying the embedded copies to the global records.
- `citas_controller.dfy`, `clientes_controller.dfy`, `horarios_controller.dfy`,
  `servicios_controller.dfy`, `usuarios_controller.dfy`: one module per controller. Each handler
  is a method over `Db` that performs the source's ordered writes, returns the HTTP status (and
  body) it answers with, and states the whole new state of what it may modify.
- `peticiones.dfy`, `validacion.dfy`, `calendario.dfy`: what the pages share — the response
  handling, the phone, e-mail and 24-hour hour validators, and the month grids.
- `admin_citas.dfy`, `admin_clientes.dfy`, `admin_servicios.dfy`, `admin_agregar_cliente.dfy`,
  `admin_agregar_servicio.dfy`, `admin_dashboard.dfy`, `admin_horarios.dfy`, `mis_citas.dfy`,
  `agendar_cita.dfy`: one module per page, holding its list normalisation, filters, validation
  chains, local list updates, counters and loops.

Time, identifiers and hashing enter as parameters: the current time is an integer `ahora`, a
generated `ObjectId` or `clienteId` is a parameter the caller supplies, `bcrypt.hash` and
`bcrypt.compare` are function parameters, and the JavaScript `Date` is replaced by the numbers it
is built from (year, zero-based month, day, hours, minutes) with an abstract time stamp. A request
field that is missing, `null`, `undefined` or `""` is the empty string, since the code treats all
of them as falsy.

The slot writes on the day documents (`citasController.js` lines 99-102, 216-224, 263-266, 337-340) are plain
`updateOne` calls without `upsert`, so a day that has no document never gets one.

## Model

| member | source | states |
|---|---|---|
| Almacen.QuitarHora | backend/src/controllers/citasController.js:99-102 | `$pull` on a day document: the hour is gone from an existing day, the rest of that day and every other day are unchanged, and no day is created |
| Almacen.DevolverHora | backend/src/controllers/citasController.js:263-266 | `$addToSet` on a day document: the hour is present on an existing day, nothing else changes, and no day is created |
| Almacen.DevolverHoraIdempotente | backend/src/controllers/citasController.js:263-266 | giving a slot back twice leaves the same days as giving it back once |
| Almacen.QuitarDevolverInversas | backend/src/controllers/citasController.js:216-224 | taking a free slot and giving it back restores the day; giving back a taken slot and taking it again restores it too |
| Almacen.Buscar | backend/src/controllers/citasController.js:258-261 | the entry the positional `$` selects: a member with that id, `None` exactly when no entry has it |
| Almacen.Dueno | backend/src/controllers/citasController.js:258-261 | the client `{ "citas.citaId": id }` matches first: it holds the id and no earlier client does; `None` when no client holds it |
| Almacen.CambiarEntrada | backend/src/controllers/citasController.js:198-201 | the positional `$set` on an embedded entry: each supplied field is written, the others and the id are kept |
| Almacen.CambiarCita | backend/src/controllers/citasController.js:189-196 | the `$set` on the global record: each supplied field is written; id, client, phone, e-mail, reminder flag and registration date are kept |
| Almacen.BuscarTrasCambiar | backend/src/controllers/citasController.js:203-207 | after the positional update of one id, that id is found changed and every other id is found exactly as before |
| Almacen.SinId | backend/src/controllers/citasController.js:332-335 | `$pull: { citas: { citaId } }`: exactly the entries with another id remain |
| Almacen.BuscarTrasQuitar | backend/src/controllers/citasController.js:332-335 | after the pull the id is no longer found and every other id is found as before |
| Almacen.BuscarTrasAgregar | backend/src/controllers/citasController.js:67-81 | after a `$push` an id already listed is still found at its first entry, and a new id is found at the pushed entry |
| Almacen.CambiarEmbebida | backend/src/controllers/citasController.js:258-261 | the update touches only the first client holding the id, and only its `citas` array |
| Almacen.QuitarEmbebida | backend/src/controllers/citasController.js:332-335 | the pull touches only the first client holding the id, and only its `citas` array |
| Almacen.NuloSiVacio | backend/src/controllers/citasController.js:50 | `correo \|\| null` (also `telefono \|\| null` in `usuariosController.js` line 28, and the fields `actualizarCita` writes only when non-empty, lines 189-192): `None` exactly for an empty text, otherwise the text itself |
| Citas.UpsertCliente | backend/src/controllers/citasController.js:45-61 | afterwards some client has the phone; an existing first match only gets the new nombre and correo, keeping clienteId, registration date and appointments; otherwise one client is appended with the fresh clienteId and no appointments |
| Citas.CrearCita | backend/src/controllers/citasController.js:7-112 | 400 and no write when a field is missing or the date is blocked in `config-dias-no-disponibles`; otherwise 201, the client upsert, one pushed entry and one global record sharing the fresh id with estado "activa", and the hour pulled from that day only |
| Citas.Reservar | backend/src/controllers/citasController.js:45-81 | function for the client upsert and the `$push` of the new entry; its contract is stated by `Citas.ReservarPreservaCoherencia`, `Citas.ReservarReflejaNueva` and `Citas.ReservarAgregaUnaEntrada` |
| Citas.ReservarPreservaCoherencia | backend/src/controllers/citasController.js:64-96 | a booking with a fresh id keeps every global record mirrored by the first client holding its id, the new record included |
| Citas.ReservarReflejaNueva | backend/src/controllers/citasController.js:67-96 | the new global record is mirrored by the entry pushed into the client the phone lookup finds |
| Citas.ReservarAgregaUnaEntrada | backend/src/controllers/citasController.js:67-81 | across all clients the embedded entries grow by exactly the one new entry |
| Citas.ActualizarCita | backend/src/controllers/citasController.js:169-232 | 400 without an id and 404 for an unknown one, with no change; otherwise only the truthy fields change, identically on the record and on its positional copy, and when fecha or hora is sent the old slot goes back before the new one is taken |
| Citas.CambioVacioNoCambiaNada | backend/src/controllers/citasController.js:198-208 | an update that sets no field changes no client |
| Citas.CambiarPreservaCoherencia | backend/src/controllers/citasController.js:189-208 | applying the same change to the global record and to its positional copy keeps the two copies in agreement |
| Citas.Reagendar | backend/src/controllers/citasController.js:210-225 | function for the `$addToSet` of the old slot then the `$pull` of the new one; its contract is stated by `Citas.ReagendarMismoHueco`, `Citas.ReagendarMueveLaReserva` and `Citas.ReagendarIdaYVuelta` |
| Citas.ReagendarMismoHueco | backend/src/controllers/citasController.js:210-225 | re-scheduling onto the same slot leaves it taken: that day is the old day minus the hour |
| Citas.ReagendarMueveLaReserva | backend/src/controllers/citasController.js:210-225 | a move to another slot frees the old hour, takes the new one and leaves every other day alone |
| Citas.ReagendarIdaYVuelta | backend/src/controllers/citasController.js:210-225 | moving a taken slot to a free one and back restores every day |
| Citas.CancelarCita | backend/src/controllers/citasController.js:235-273 | 400 without an id and 404 for an unknown one, with no change; otherwise "cancelada" on both copies and the hour back on its day; the current estado is not checked |
| Citas.FinalizarCita | backend/src/controllers/citasController.js:276-309 | the same answers; "finalizada" on both copies and the days never touched |
| Citas.CambiarEstadoPreservaCoherencia | backend/src/controllers/citasController.js:253-261 | writing a new estado on both copies keeps them in agreement |
| Citas.CancelarIdempotente | backend/src/controllers/citasController.js:253-266 | cancelling twice leaves the same clients, records and days as cancelling once |
| Citas.EliminarCita | backend/src/controllers/citasController.js:312-347 | the same 400/404 answers; otherwise the global record is deleted, the entry pulled from the first client holding it and the hour given back |
| Citas.EliminarPreservaCoherencia | backend/src/controllers/citasController.js:330-335 | after a delete every remaining record is still mirrored and the client that held the id holds it no more |
| Citas.InsertarCita | backend/src/controllers/citasController.js:156-159 | inserting into a list ordered by (fecha, hora) keeps it ordered and adds exactly that record |
| Citas.ObtenerTodasLasCitas | backend/src/controllers/citasController.js:151-166 | every global record, each once, ordered by (fecha, hora) |
| Citas.BuscarPorCorreo | backend/src/controllers/citasController.js:129-141 | exactly the records whose correo equals the one asked for, each once, ordered by (fecha, hora) |
| Citas.ObtenerCitasPorCorreo | backend/src/controllers/citasController.js:115-148 | 400 and nothing when neither the path nor the query has an e-mail (the path wins); otherwise the projection of exactly the records with that e-mail, ordered |
| Clientes.NormalizarCorreo | backend/src/controllers/clientesController.js:26 | `trim().toLowerCase()`: no white space at either end and every letter lower-cased |
| Clientes.NormalizarCorreoIdempotente | backend/src/controllers/clientesController.js:215 | normalising an address already normalised changes nothing |
| Clientes.ClienteNuevo | backend/src/controllers/clientesController.js:38-48 | the inserted document: the normalised address, the bcrypt hash, the fresh clienteId, no appointments, activo true and rol "cliente" |
| Clientes.CompletarCuenta | backend/src/controllers/clientesController.js:67-77 | completing an account sets nombre, correo, telefono and hash and keeps clienteId, appointments, activo and rol |
| Clientes.RegistrarCliente | backend/src/controllers/clientesController.js:13-88 | 400 on a missing field; 201 and one new client when no client has the address or the phone; 409 and no write when the first match has a password; otherwise 200 and that client completed in place |
| Clientes.RegistrarPreservaCoherencia | backend/src/controllers/clientesController.js:34-77 | neither branch of a registration breaks the appointment mirror |
| Clientes.CompletarPreservaCoherencia | backend/src/controllers/clientesController.js:67-77 | completing an account keeps the appointment mirror |
| Clientes.SesionAdmin | backend/src/controllers/clientesController.js:110-129 | the admin bypass always answers with the admin address and rol "admin"; with the clienteId, nombre and telefono of the first stored client holding that address, or exactly the fixed "admin001" data when none does |
| Clientes.AdminEntraSiempre | backend/src/controllers/clientesController.js:110-129 | the admin pair logs in as admin with the stored admin's clienteId, whatever its `activo` flag or password |
| Clientes.RolDe | backend/src/controllers/clientesController.js:157 | `cliente.rol \|\| "cliente"` |
| Clientes.Escalera | backend/src/controllers/clientesController.js:133-166 | in order: 404 without a match, 403 for `activo === false`, 401 without a hash, 401 when the password does not match, otherwise the client's data and role |
| Clientes.LoginCliente | backend/src/controllers/clientesController.js:94-171 | 400 on a missing field; the admin pair succeeds as "admin" before any other check; everyone else goes through the ladder looked up by the raw address |
| Clientes.LoginTrasRegistroFalla | backend/src/controllers/clientesController.js:133 | as written: a new client whose address normalisation changes gets 404 when logging in with the address it registered |
| Clientes.LoginTrasRegistroFallaEjemplo | backend/src/controllers/clientesController.js:133 | concretely, "Ana@correo.com" registers as "ana@correo.com" and the login with "Ana@correo.com" finds nobody |
| Clientes.LoginClienteCorregido | backend/src/controllers/clientesController.js:133 | the same ladder with the lookup on the normalised address |
| Clientes.LoginCorregidoTrasRegistro | backend/src/controllers/clientesController.js:26-56 | with the corrected lookup a client that has just registered logs in with its own address and password as "cliente" |
| Clientes.ListarClientes | backend/src/controllers/clientesController.js:182-185 | every client, each once, newest registration first |
| Clientes.ActualizarDatos | backend/src/controllers/clientesController.js:215-226 | nombre, normalised correo and telefono are written; the hash changes only for a password that is not blank after trimming, and then to the hash of the trimmed password |
| Clientes.ActualizarPorOid | backend/src/controllers/clientesController.js:228 | `updateOne({ _id })`: only the first client with that `_id` changes, and the number of clients is kept |
| Clientes.ActualizarCliente | backend/src/controllers/clientesController.js:197-235 | 400 for an invalid id or a missing field with no write; otherwise the `$set` on the client with that `_id` and 200, even when no client has it |
| Clientes.ActualizarPorOidPreservaCoherencia | backend/src/controllers/clientesController.js:228 | a change that keeps clienteId and the appointments keeps the mirror |
| Clientes.EstadoDe | backend/src/controllers/clientesController.js:262 | "Activo" for true and "Inactivo" for false |
| Clientes.CambiarEstadoCliente | backend/src/controllers/clientesController.js:240-274 | 400 for an invalid id or a non-boolean `activo`; 404 when no client matched; otherwise `activo` and `estado` set together |
| Clientes.CambiarEstadoEfecto | backend/src/controllers/clientesController.js:260-263 | afterwards the two fields agree, setting the same value twice is setting it once, and a client switched off gets 403 at login whatever its password |
| Clientes.SinCliente | backend/src/controllers/clientesController.js:301 | `deleteMany({ clienteId })`: exactly the records of other clients remain |
| Clientes.EliminarCliente | backend/src/controllers/clientesController.js:279-309 | 400 for an invalid id and 404 when absent; otherwise the client is removed and, when it has a clienteId, every global record of that clienteId |
| Clientes.EliminarClientePreservaCoherencia | backend/src/controllers/clientesController.js:298-302 | after the cascade every surviving record is still mirrored by a client that is still there |
| Horarios.NormalizarFechaISO | backend/src/controllers/horariosController.js:9-17 | `null` exactly when the date does not parse, otherwise a prefix of its ISO form, ten characters long when that form is |
| Horarios.NormalizarPresentes | backend/src/controllers/horariosController.js:80-83 | equal to the independent pipeline `map` then `filter(!!d)` over the entries, so the present non-empty normalised values in input order |
| Horarios.DiasNormalizados | backend/src/controllers/horariosController.js:78-85 | the stored list has no duplicates, holds exactly the values of the normalised list of truthy entries, and orders them by their first occurrence in it |
| Horarios.DiasNormalizadosIdempotente | backend/src/controllers/horariosController.js:78-85 | saving the stored list again stores it unchanged when normalisation maps each stored day to itself |
| Horarios.DeduplicarIdempotente | backend/src/controllers/horariosController.js:78-85 | removing duplicates from a list that has none changes nothing |
| Horarios.ObtenerConfiguracionHorarios | backend/src/controllers/horariosController.js:24-53 | creates `config-global` with empty arrays when absent and nothing else; returns the stored arrays, `[]` for a missing field |
| Horarios.GuardarConfiguracionHorarios | backend/src/controllers/horariosController.js:63-110 | non-array inputs become `[]`; the document ends up with that week and the normalised list, with nothing else of the body stored, and the response carries that list |
| Horarios.ListaBloqueada | backend/src/controllers/horariosController.js:127-128 | function for `config?.diasNoDisponibles`, or the empty list without one; its contract is stated by `Horarios.VerificarDiaBloqueado`: a date is in it exactly when the stored document exists and its list holds the date |
| Horarios.VerificarDiaBloqueado | backend/src/controllers/horariosController.js:116-142 | 400 without a date; otherwise `bloqueado` is exact membership in the stored list, false without a document, and nothing is written |
| Horarios.ObtenerDiasNoDisponibles | backend/src/controllers/horariosController.js:148-164 | the stored list or `[]`, and the document is never created |
| Horarios.BloqueadoTrasGuardar | backend/src/controllers/horariosController.js:78-130 | after a save a date is reported blocked exactly when some entry the admin sent normalises to it |
| Servicios.NumeroJs | backend/src/controllers/serviciosController.js:41-42 | `Number(v)`: a number stays itself, a boolean is 0 or 1, a missing value is NaN and a text goes through the string conversion |
| Servicios.NumeroOCero | backend/src/controllers/serviciosController.js:41-42 | `Number(v) \|\| 0`: NaN becomes 0 and every number stays itself |
| Servicios.ServicioNuevo | backend/src/controllers/serviciosController.js:38-46 | nombre and descripcion trimmed (descripcion "" when absent), the numbers through `Number(x) \|\| 0`, and publicado false only when sent as false |
| Servicios.ListarServicios | backend/src/controllers/serviciosController.js:10-13 | every service, each once, newest creation first |
| Servicios.CrearServicio | backend/src/controllers/serviciosController.js:25-61 | 400 and no insert without a name; otherwise 201 and exactly that document appended |
| Servicios.CreadoSeLista | backend/src/controllers/serviciosController.js:10-46 | a service just created appears in the listing |
| Servicios.AplicarCambio | backend/src/controllers/serviciosController.js:72-81 | only the fields the body carries change, each coerced as on creation, plus `actualizadoEn`; oid, publicado and creadoEn are kept |
| Servicios.CambioVacio | backend/src/controllers/serviciosController.js:72-74 | a body with no field only moves the time stamp |
| Servicios.ActualizarServicio | backend/src/controllers/serviciosController.js:64-104 | 500 for an id that is not an ObjectId; 404 and no change when no service has it; otherwise only the first match changes |
| Servicios.Alternar | backend/src/controllers/serviciosController.js:120-130 | publicado negated and the time stamp set, everything else kept |
| Servicios.TogglePublicado | backend/src/controllers/serviciosController.js:107-142 | 404 when absent with no change; otherwise the first match is switched and the response carries its new value |
| Servicios.AlternarDosVeces | backend/src/controllers/serviciosController.js:120-130 | switching twice restores the catalogue except for the time stamp |
| Servicios.EliminarServicio | backend/src/controllers/serviciosController.js:145-165 | 404 when nothing was deleted; otherwise exactly the first service with that id is removed |
| Servicios.EliminarUnaVez | backend/src/controllers/serviciosController.js:152-156 | with unique ids a second delete of the same id answers 404 |
| Usuarios.UsuarioNuevo | backend/src/controllers/usuariosController.js:24-32 | the inserted user keeps the given fields, with rol "cliente" and no appointments |
| Usuarios.RegistrarUsuario | backend/src/controllers/usuariosController.js:4-42 | 400 on a missing field and 409 for a known address, with no insert; otherwise 201 and the one new user appended |
| Usuarios.RegistrarPreservaUnicidad | backend/src/controllers/usuariosController.js:16-32 | registration keeps addresses unique |
| Usuarios.LoginUsuario | backend/src/controllers/usuariosController.js:44-88 | 400 on a missing field, the admin pair before any lookup, 404 when nobody has the address, 401 for a different plain-text password, else the user's role or "cliente" |
| Usuarios.LoginTrasRegistro | backend/src/controllers/usuariosController.js:24-83 | a user that has just registered logs in with the same address and password as "cliente" |
| AdminCitas.EstadoUI | frontend/src/pages/AdminCitasPage.jsx:156-160 | a missing estado and "activa" read "Pendiente", "cancelada" and "finalizada" get their capitalised label, any other text is shown as it is |
| AdminCitas.EstadoUIIdempotente | frontend/src/pages/AdminCitasPage.jsx:156-160 | a label is never empty nor a stored form, and labelling it again keeps it |
| AdminCitas.MismaEtiquetaQueElPanel | frontend/src/pages/AdminCitasPage.jsx:156-160 | for the three states the backend writes, this page shows the label the dashboard shows |
| AdminCitas.NormalizarFila | frontend/src/pages/AdminCitasPage.jsx:150-191 | every shown field is non-empty, each falls back to its default only when the record lacks it, the date text is `fecha` or `fechaCorta`, and `citaIdReal` is present exactly when the record has a `citaId` |
| AdminCitas.Filas | frontend/src/pages/AdminCitasPage.jsx:150-192 | one row per record, in order, each normalised with its own index |
| AdminCitas.CitasFiltradas | frontend/src/pages/AdminCitasPage.jsx:194-229 | function; its contract is stated by `AdminCitas.FiltradasSonLasQuePasan`: a subsequence of the rows holding a row exactly when it passes the state, range and search filters |
| AdminCitas.FiltradasSonLasQuePasan | frontend/src/pages/AdminCitasPage.jsx:194-229 | the list shown is a subsequence of the rows and holds a row exactly when it passes the state, range and search filters |
| AdminCitas.BusquedaIgnoraMayusculas | frontend/src/pages/AdminCitasPage.jsx:220-226 | an upper-cased query keeps exactly the rows the query keeps |
| AdminCitas.AplicarCambio | frontend/src/pages/AdminCitasPage.jsx:140 | `{ ...c, ...cambios }`: the fields the change carries are overwritten, every other field is kept |
| AdminCitas.ActualizarCitaRaw | frontend/src/pages/AdminCitasPage.jsx:138-142 | same length and ids; the records with that id get the change, the others are kept |
| AdminCitas.ActualizarIdempotente | frontend/src/pages/AdminCitasPage.jsx:138-142 | applying the same local change twice is applying it once |
| AdminCitas.EliminarCitaRaw | frontend/src/pages/AdminCitasPage.jsx:144-146 | a subsequence with no record of that id, keeping every other record, shorter by the number of records with the id |
| AdminCitas.EstadoMostrado | frontend/src/pages/AdminCitasPage.jsx:338 | after a local state change the rows of that id show the label of the new state and the other rows are unchanged |
| AdminCitas.FinalizadaYCanceladaSeMuestran | frontend/src/pages/AdminCitasPage.jsx:338-355 | a finalised appointment is shown as "Finalizada" and a cancelled one as "Cancelada" |
| AdminCitas.ArmarCuerpo | frontend/src/pages/AdminCitasPage.jsx:276-299 | a non-blank hour that is not `HH:MM` in 24 hours and an all-blank form are the only refusals; otherwise the body holds a key exactly for each non-blank field, with its trimmed text |
| AdminCitas.CuerpoDeLimpios | frontend/src/pages/AdminCitasPage.jsx:276-299 | the same decisions on the three texts once trimmed, with the keys exactly those of the non-empty texts |
| AdminCitas.TresCampos | frontend/src/pages/AdminCitasPage.jsx:276-294 | the body built field by field has one key per non-empty field, holding that field |
| AdminCitas.CambiosRaw | frontend/src/pages/AdminCitasPage.jsx:314-317 | the local change carries a field exactly when the body does, with the same text, and never a state |
| AdminCitas.LocalComoServidor | frontend/src/pages/AdminCitasPage.jsx:314-319 | the change merged locally is the change `actualizarCita` writes for the same body |
| AdminCitas.VistaTrasCambio | frontend/src/pages/AdminCitasPage.jsx:138-142 | merging a change into the listed record gives the listing of the record the server changed |
| AdminCitas.CuerpoEnElServidor | frontend/src/pages/AdminCitasPage.jsx:276-308 | a body the modal sends makes the server write at least one field, exactly the ones sent, with a 24-hour hour |
| AdminCitas.ConfirmarAccion | frontend/src/pages/AdminCitasPage.jsx:266-378 | nothing is sent without a real `citaId`; otherwise one request for the chosen action; the local list changes and the modal closes only when that request succeeded, each action with its own local update and message |
| AdminClientes.EstadoCuenta | frontend/src/pages/AdminClientesPage.jsx:116-117 | a stored `estado` is shown as it is; without one the account reads "Inactivo" exactly when `activo` is false and "Activo" otherwise |
| AdminClientes.NormalizarCliente | frontend/src/pages/AdminClientesPage.jsx:110-139 | each field falls back to its placeholder only when missing; without a stored `tipo` a client is "Inactivo" exactly when its account is, otherwise "Frecuente" from five appointments on and "Nuevo" below |
| AdminClientes.FilasClientes | frontend/src/pages/AdminClientesPage.jsx:110 | one row per client, in order, each normalised with its own index |
| AdminClientes.ClientesFiltrados | frontend/src/pages/AdminClientesPage.jsx:141-158 | function; its contract is stated by `AdminClientes.FiltradosSonLosQuePasan`: a subsequence of the rows holding a row exactly when it passes the state filter and the search |
| AdminClientes.FiltradosSonLosQuePasan | frontend/src/pages/AdminClientesPage.jsx:141-158 | the list shown is a subsequence of the rows and holds a row exactly when it passes the state filter and the search |
| AdminClientes.BusquedaIgnoraMayusculas | frontend/src/pages/AdminClientesPage.jsx:148-155 | an upper-cased query keeps exactly the rows the query keeps |
| AdminClientes.ActualizarDe | frontend/src/pages/AdminClientesPage.jsx:250-261 | `(c._id \|\| c.id) === id`: the matching records get the change, the others are kept, the length too |
| AdminClientes.ValidarEdicion | frontend/src/pages/AdminClientesPage.jsx:202-241 | each refusal exactly when its check is the first to fail (blank field, phone without digits, e-mail off the pattern); an accepted body holds the trimmed name and e-mail, the phone's digits, and the trimmed password exactly when one was typed |
| AdminClientes.CuerpoAceptadoPorServidor | frontend/src/pages/AdminClientesPage.jsx:233-241 | a body the page sends has no empty required field for `actualizarCliente`, a phone of digits only, an e-mail of the form `a@b.c` and only a non-blank password |
| AdminClientes.GuardarEdicion | frontend/src/pages/AdminClientesPage.jsx:202-270 | nothing is sent without an open edit or when a check fails; a saved edit writes nombre, telefono and correo into the matching records, and a failed request leaves the copy alone with its error |
| AdminClientes.EdicionSeMuestra | frontend/src/pages/AdminClientesPage.jsx:250-261 | after a saved edit the matching rows show exactly the data sent and every other record is unchanged |
| AdminClientes.EstadoAlternado | frontend/src/pages/AdminClientesPage.jsx:276 | "Activo" becomes "Inactivo" and anything else "Activo" |
| AdminClientes.ToggleEstado | frontend/src/pages/AdminClientesPage.jsx:274-322 | the request carries `activo` exactly when the new state is "Activo"; afterwards the matching records hold the new state, or the previous one when the request failed, and no other record changes |
| AdminClientes.ToggleCambiaElEstado | frontend/src/pages/AdminClientesPage.jsx:274-304 | a successful toggle flips the shown state between "Activo" and "Inactivo", and the state the server stores for that `activo` is the one shown |
| AdminClientes.ToggleFallidoRestaura | frontend/src/pages/AdminClientesPage.jsx:305-321 | after a failed toggle the row is shown exactly as before |
| AdminClientes.EliminarCliente | frontend/src/pages/AdminClientesPage.jsx:325-356 | nothing happens without confirmation; a successful delete leaves a subsequence without the matching records and with every other one; a failed one restores the previous copy |
| AdminServicios.ServiciosFiltrados | frontend/src/pages/AdminServiciosPage.jsx:35-59 | function; its contract is stated by `AdminServicios.FiltradosSonLosQuePasan`: a subsequence of the catalogue holding a service exactly when it passes the state filter and the search |
| AdminServicios.FiltradosSonLosQuePasan | frontend/src/pages/AdminServiciosPage.jsx:35-59 | the list shown is a subsequence of the catalogue and holds a service exactly when it passes the state filter and the search |
| AdminServicios.BusquedaIgnoraMayusculas | frontend/src/pages/AdminServiciosPage.jsx:47-56 | an upper-cased query keeps exactly the services the query keeps |
| AdminServicios.Contadores | frontend/src/pages/AdminServiciosPage.jsx:61-63 | function; its contract is stated by `AdminServicios.ContadoresCuadran`: the hidden count is the number of unpublished services and the counters add up to the total |
| AdminServicios.ContadoresCuadran | frontend/src/pages/AdminServiciosPage.jsx:61-63 | the hidden counter is the number of unpublished services, the two counters add up to the total, and each matches the list its filter shows |
| AdminServicios.GuardarEdicion | frontend/src/pages/AdminServiciosPage.jsx:84-101 | nothing without an open edit; otherwise the trimmed name when not blank, the trimmed description, the duration by `parseInt` and the price by `parseFloat` with 0 for NaN, and every other field kept |
| AdminServicios.EdicionSinCambios | frontend/src/pages/AdminServiciosPage.jsx:84-101 | saving the modal untouched gives back the same service |
| AdminAgregarCliente.ValidarAlta | frontend/src/pages/AdminAgregarClientePage.jsx:25-57 | each refusal exactly when its check is the first to fail (a missing field, the e-mail pattern, the phone pattern); an accepted form sends the four fields as typed |
| AdminAgregarCliente.AltaCompleta | frontend/src/pages/AdminAgregarClientePage.jsx:28-57 | a form the page accepts is a complete registration for `registrarCliente`, with an e-mail of the form `a@b.c` and a phone of 7 to 15 digits |
| AdminAgregarCliente.TelefonoDelCampo | frontend/src/pages/AdminAgregarClientePage.jsx:149-153 | with the phone input keeping digits only, the phone check refuses exactly the lengths outside 7 to 15 |
| AdminAgregarCliente.TrasRespuesta | frontend/src/pages/AdminAgregarClientePage.jsx:60-82 | 409 shows the server's message or the duplicate text, any other non-OK status the server's message or the generic text, a lost connection the connection text, and only an OK answer leaves for the client list |
| AdminAgregarCliente.RespuestasDelRegistro | frontend/src/pages/AdminAgregarClientePage.jsx:62-76 | the 201 and 200 of `registrarCliente` leave for the list, and its 409 shows the server's wording rather than the page's fallback |
| AdminAgregarServicio.ValidarServicio | frontend/src/pages/AdminAgregarServicioPage.jsx:12-45 | each refusal exactly when its check is the first to fail (a missing field, a duration that is NaN or not above 0, a price that is NaN or negative); an accepted form sends the texts as typed, the two numbers read and `publicado: true` |
| AdminAgregarServicio.PedidoCreaServicioPublicado | frontend/src/pages/AdminAgregarServicioPage.jsx:39-45 | what the form sends is accepted by `crearServicio` and stored published, with the trimmed texts, a positive whole duration and a price that is not negative |
| AdminAgregarServicio.TrasRespuesta | frontend/src/pages/AdminAgregarServicioPage.jsx:53-72 | a non-OK status shows the server's message or the fallback, a lost connection the connection text, and only an OK answer leaves for the services page |
| AdminAgregarServicio.RespuestasDeCreacion | frontend/src/pages/AdminAgregarServicioPage.jsx:55-66 | the 201 of `crearServicio` leaves for the services page and its 400 shows the server's reason |
| Peticiones.MensajeO | frontend/src/pages/AdminAgregarClientePage.jsx:71 | `data.mensaje \|\| defecto`: the server's message when it sent a non-empty one, the fallback otherwise |
| Validacion.EsTelefonoValido | frontend/src/pages/AgendarCitaPage.jsx:44-48 | predicate for `/^[0-9]{7,15}$/`; its contract is stated by `Validacion.TelefonoFiltradoValido` (on digit-only text it is the 7-to-15 length check) and `Validacion.TelefonoValidoSeConserva` (an accepted phone passes the digit filter unchanged) |
| Validacion.TelefonoFiltradoValido | frontend/src/pages/AdminAgregarClientePage.jsx:19-23 | once the phone holds digits only, `/^[0-9]{7,15}$/` accepts it exactly when it has 7 to 15 digits |
| Validacion.TelefonoValidoSeConserva | frontend/src/pages/AdminAgregarClientePage.jsx:149-153 | a phone the pattern accepts passes the digit filter unchanged |
| Validacion.EsCorreoValido | frontend/src/pages/AgendarCitaPage.jsx:50-53 | predicate for `/^[^\s@]+@[^\s@]+\.[^\s@]+$/`; its contract is stated by `Validacion.CorreoValidoSiCoincide`: it accepts exactly the texts `a@b.c` with three non-empty runs free of white space and `@` |
| Validacion.CorreoDePartes | frontend/src/pages/AdminAgregarClientePage.jsx:13-17 | `a@b.c` with three non-empty runs free of white space and `@` is accepted by `/^[^\s@]+@[^\s@]+\.[^\s@]+$/` |
| Validacion.PartesDeCorreo | frontend/src/pages/AdminAgregarClientePage.jsx:13-17 | every text the e-mail check accepts is of that form |
| Validacion.CorreoValidoSiCoincide | frontend/src/pages/AdminAgregarClientePage.jsx:13-17 | the e-mail check accepts exactly the texts of the form `a@b.c` |
| Validacion.CorreoAceptado | frontend/src/pages/AdminAgregarClientePage.jsx:13-17 | "ana@correo.com" is accepted |
| Validacion.CorreoSinPunto | frontend/src/pages/AdminAgregarClientePage.jsx:13-17 | "ana@correo", with no dot after the `@`, is refused |
| Validacion.CorreoConEspacio | frontend/src/pages/AdminAgregarClientePage.jsx:13-17 | an address with a space in it is refused |
| Validacion.HoraTexto | frontend/src/pages/AdminCitasPage.jsx:286 | two padded numbers of two digits joined by ":" make five characters with the colon third |
| Validacion.Hora24SiHoraDelDia | frontend/src/pages/AdminCitasPage.jsx:286 | `/^([01]\d\|2[0-3]):[0-5]\d$/` accepts exactly the padded times of day from 00:00 to 23:59 |
| Validacion.EsHora24 | frontend/src/pages/AdminDashboardPage.jsx:96-98 | predicate for the 24-hour pattern on the trimmed text; its contract is stated by `Validacion.EsHora24SiHoraDelDia` and `Validacion.HoraDelDiaEsHora24`: it accepts exactly the padded times of day |
| Validacion.EsHora24SiHoraDelDia | frontend/src/pages/AdminDashboardPage.jsx:96-98 | `esHora24` accepts exactly the texts whose trimmed form is a padded time of day |
| Validacion.HoraDelDiaEsHora24 | frontend/src/pages/AdminDashboardPage.jsx:96-98 | every padded time of day passes both hour checks |
| Validacion.LeerHoraTexto | frontend/src/pages/MisCitasPage.jsx:60-73 | splitting a padded time at ":" gives its two numbers, and `parseInt` reads each back |
| AdminDashboard.ParseFechaYYYYMMDD | frontend/src/pages/AdminDashboardPage.jsx:10-24 | function; its contract is stated by `AdminDashboard.FechaRechazada` (`null` exactly for an empty text, other than three parts, or a part `parseInt` cannot read) and `AdminDashboard.FechaDeTresPartes` (three numeric parts give that day at midnight, month counted from 0) |
| AdminDashboard.FechaRechazada | frontend/src/pages/AdminDashboardPage.jsx:10-24 | `parseFechaYYYYMMDD` gives `null` exactly for an empty text, a text of other than three `-`-separated parts, or a part `parseInt` does not read |
| AdminDashboard.FechaDeTresPartes | frontend/src/pages/AdminDashboardPage.jsx:10-24 | three parts without `-` that read as numbers give that day at midnight, with the month counted from 0 |
| AdminDashboard.FechaYYYYMMDDLegible | frontend/src/pages/AdminDashboardPage.jsx:10-24 | the text `YYYY-MM-DD` written from three numbers reads back as that day at midnight |
| AdminDashboard.MismaFechaQueMisCitas | frontend/src/pages/AdminDashboardPage.jsx:10-24 | whenever the dashboard reads a date, the client's page reads the same day from the same text |
| AdminDashboard.NormalizarEstado | frontend/src/pages/AdminDashboardPage.jsx:79-87 | once trimmed and lower-cased, "activa" and "pendiente" read "Pendiente", "confirmada" "Confirmada", "cancelada" "Cancelada", "finalizada" and "completada" "Finalizada"; an empty state is "Pendiente" and any other is kept as it came |
| AdminDashboard.NormalizarEstadoIdempotente | frontend/src/pages/AdminDashboardPage.jsx:79-87 | normalising a label again changes nothing |
| AdminDashboard.PrimeroNoVacio | frontend/src/pages/AdminDashboardPage.jsx:191-198 | `a \|\| b \|\| … \|\| defecto`: the first non-empty text, or the default when all are empty |
| AdminDashboard.Normalizar | frontend/src/pages/AdminDashboardPage.jsx:187-211 | the date text is `fecha` or `fechaCorta` and the date is read from it; client and service fall back along their chains and are never empty; the hour is trimmed, the state normalised, and the id is `citaId`, `_id` or the position |
| AdminDashboard.CitasNormalizadas | frontend/src/pages/AdminDashboardPage.jsx:185-212 | one entry per record, in order, each normalised with its own index |
| AdminDashboard.MarcaCita | frontend/src/pages/AdminDashboardPage.jsx:112-123 | no stamp exactly when there is no date; an hour that fails `esHora24` leaves the stamp at the day's midnight |
| AdminDashboard.MarcaDePartes | frontend/src/pages/AdminDashboardPage.jsx:115-122 | an hour that passes `esHora24` and splits into two numbers moves the stamp to that hour and minute of the day |
| AdminDashboard.MarcaDeHoraTexto | frontend/src/pages/AdminDashboardPage.jsx:112-123 | a padded time of day `HH:MM` stamps the appointment at exactly that hour and minute |
| AdminDashboard.RecogerProximas | frontend/src/pages/AdminDashboardPage.jsx:218-226 | the loop keeps, in order, exactly the records that are dated, neither cancelled nor finished, and stamped at or after now |
| AdminDashboard.ProximasCitas | frontend/src/pages/AdminDashboardPage.jsx:214-230 | at most eight upcoming appointments, each taken from the upcoming ones no more often than it occurs there, soonest first; an upcoming one is left out only when eight were kept, none later than it |
| AdminDashboard.EstadosAcotados | frontend/src/pages/AdminDashboardPage.jsx:261-267 | the four state counters never add up to more than the total: other labels count in the total only |
| AdminDashboard.VisitarHoy | frontend/src/pages/AdminDashboardPage.jsx:257-273 | one record adds one to the total and to its state's counter when stamped today, and becomes the next appointment when it is upcoming and none is kept yet or its stamp is below the kept one |
| AdminDashboard.ContarHoy | frontend/src/pages/AdminDashboardPage.jsx:256-274 | the loop's counters are the counts of today's records in total and per state, and `siguiente` is the first upcoming record of smallest stamp |
| AdminDashboard.ResumenHoy | frontend/src/pages/AdminDashboardPage.jsx:242-286 | the counters over today's appointments; `siguiente` is absent exactly when nothing is upcoming, and otherwise an upcoming appointment whose stamp is the least, the first such in the list |
| AdminDashboard.Incrementar | frontend/src/pages/AdminDashboardPage.jsx:334 | `conteo.set(srv, (get(srv) \|\| 0) + 1)`: a new service is appended with 1, a known one gets one more and every other entry is kept |
| AdminDashboard.Porcentaje | frontend/src/pages/AdminDashboardPage.jsx:347-350 | a whole number from 0 to 100, 0 for an empty month, otherwise the nearest percentage with halves rounded up |
| AdminDashboard.PorcentajeRedondeado | frontend/src/pages/AdminDashboardPage.jsx:348 | `(200n + t) div 2t` is the nearest whole percentage of `n` out of `t`, between 0 and 100 when `n <= t` |
| AdminDashboard.ResumenMes | frontend/src/pages/AdminDashboardPage.jsx:318-362 | the month's total and its state counters are the counts of the month's records, the percentages are theirs, and at most five distinct services with their true counts, most booked first; a service is left out only when five were kept, each booked at least as often |
| AdminDashboard.RecorrerMes | frontend/src/pages/AdminDashboardPage.jsx:327-340 | after the loop the counters are the month's counts and every service of the month has exactly one entry holding its count |
| AdminDashboard.LosMasPedidos | frontend/src/pages/AdminDashboardPage.jsx:342-345 | at most five entries taken from the counts, by count from most to least |
| AdminDashboard.LosMasPedidosCuentan | frontend/src/pages/AdminDashboardPage.jsx:342-345 | over complete counts the five kept are distinct services with their true counts, and a service is left out only when five were kept, each counted at least as often |
| Calendario.GenerarCalendario | frontend/src/pages/AdminDashboardPage.jsx:42-59 | Monday first: one blank for each weekday before the 1st (six when it is a Sunday), then the days 1 to the last, in order, and fewer than seven blanks; the schedule page builds the same grid (AdminHorariosPage.jsx:22-43) |
| Calendario.ColumnaLunes | frontend/src/pages/AdminDashboardPage.jsx:42-59 | in that grid every day sits in the column of its weekday, Monday first |
| MisCitas.AjustarSufijo | frontend/src/pages/MisCitasPage.jsx:69-71 | "PM" adds twelve to an hour below 12, "AM" turns 12 into 0, any other suffix leaves the hour alone |
| MisCitas.HoraDeCita | frontend/src/pages/MisCitasPage.jsx:60-73 | no time is set exactly when there is no hour text or its hour is NaN; otherwise the suffix-adjusted hour and the minutes (0 when unreadable) |
| MisCitas.ObtenerDateCita | frontend/src/pages/MisCitasPage.jsx:46-77 | `null` exactly when the date is missing or its year, month or day is NaN; otherwise that day at the hour read from the time text, midnight when none |
| MisCitas.LeerHhmmHoraTexto | frontend/src/pages/MisCitasPage.jsx:65-67 | the `"HH:MM"` the server stores reads back as its hour and minutes |
| MisCitas.HoraSinSufijo | frontend/src/pages/MisCitasPage.jsx:60-73 | a 24-hour time without suffix is taken as it is |
| MisCitas.HoraPM | frontend/src/pages/MisCitasPage.jsx:63-70 | "PM" or "pm" before noon adds twelve hours |
| MisCitas.HoraPMMayuscula | frontend/src/pages/MisCitasPage.jsx:70 | "hh:mm PM" before noon is twelve hours later |
| MisCitas.HoraPMMinuscula | frontend/src/pages/MisCitasPage.jsx:63 | the suffix is upper-cased, so "pm" counts as "PM" |
| MisCitas.HoraAM12 | frontend/src/pages/MisCitasPage.jsx:71 | "12:mm AM" is minute mm after midnight |
| MisCitas.HoraSinMinutos | frontend/src/pages/MisCitasPage.jsx:67 | an hour without minutes gets minute 0 |
| MisCitas.FechaDePartes | frontend/src/pages/MisCitasPage.jsx:49-58 | readable year, month and day give that day with a zero-based month |
| MisCitas.FechaDeTextos | frontend/src/pages/MisCitasPage.jsx:49-58 | three dash-free numbers joined by dashes are read as year, month and day |
| MisCitas.FechaLegible | frontend/src/pages/MisCitasPage.jsx:46-77 | every `YYYY-MM-DD` date with an `HH:MM` time the server writes is read back as that day and time |
| MisCitas.SepararCitas | frontend/src/pages/MisCitasPage.jsx:79-131 | the two tabs split the list: every appointment lands in exactly one; upcoming holds the dated, not past, not cancelled or finished ones, soonest first; the history holds the rest, most recent first, undated ones included |
| MisCitas.Repartir | frontend/src/pages/MisCitasPage.jsx:84-107 | the loop sends each appointment to exactly one of two lists by the test, losing and adding none |
| MisCitas.SinFechaAlHistorial | frontend/src/pages/MisCitasPage.jsx:92-96 | an appointment whose date does not parse always goes to the history |
| MisCitas.ObtenerEtiquetaEstado | frontend/src/pages/MisCitasPage.jsx:133-139 | "Finalizada" exactly for completed or finished, "Cancelada" exactly for cancelled, "Pendiente" exactly for every other state, ignoring case |
| MisCitas.EtiquetasDeLosEstados | frontend/src/pages/MisCitasPage.jsx:98-103 | an upcoming appointment is always labelled "Pendiente", and the three states the server writes get their three labels |
| Calendario.GenerarDiasDelMes | frontend/src/pages/AgendarCitaPage.jsx:7-20 | the booking grid is as many blanks as the weekday of the 1st, then the days 1 to the month's last, in order |
| Calendario.ColumnaDomingo | frontend/src/pages/AgendarCitaPage.jsx:7-20 | in that grid every day sits in the column of its own weekday, Sunday first |
| Texto.SoloDigitos | frontend/src/pages/AgendarCitaPage.jsx:531-534 | the phone input keeps digits only: the result is all digits, drawn in order from the input, and keeps every digit of it |
| Texto.SoloDigitosIdempotente | frontend/src/pages/AgendarCitaPage.jsx:531-534 | filtering a digit-only text changes nothing, so the filter is idempotent |
| AgendarCita.ServiciosOfrecidos | frontend/src/pages/AgendarCitaPage.jsx:173-176 | the page offers exactly the published services, in catalogue order |
| AgendarCita.OfrecidoTrasAlternar | frontend/src/pages/AgendarCitaPage.jsx:174 | toggling a service's publication moves it into or out of what the booking page offers |
| AgendarCita.ElegirDia | frontend/src/pages/AgendarCitaPage.jsx:351-352 | a click on a closed day keeps the selection; on any other day it selects that day |
| AgendarCita.SeleccionSiempreAbierta | frontend/src/pages/AgendarCitaPage.jsx:376-381 | from an open day, no sequence of clicks selects a closed day |
| AgendarCita.HorasDisponiblesValidas | frontend/src/pages/AgendarCitaPage.jsx:105-115 | every hour button passes the submit's 24-hour check |
| AgendarCita.ManejarSubmit | frontend/src/pages/AgendarCitaPage.jsx:189-267 | each check stops the submit exactly when the earlier ones passed and it fails (required fields, 24-hour time, phone, e-mail only when written, then the day check: a blocked day, or a pre-check request that fails and lands in the `catch`); a non-OK pre-check answer lets it through; a sent body carries the chosen date, hour, service name and contact fields |
| AgendarCita.EnviadoEsAceptable | frontend/src/pages/AgendarCitaPage.jsx:203-245 | a sent body has a time of day as hour, a 7 to 15 digit phone, an empty or well-formed e-mail, and is complete for the backend exactly when date and service name are non-empty |
| AgendarCita.CuerpoAceptable | frontend/src/pages/AgendarCitaPage.jsx:203-222 | the same facts for any body whose hour, phone and e-mail passed the checks |
| AgendarCita.DiaBloqueadoNoSeEnvia | frontend/src/pages/AgendarCitaPage.jsx:227-236 | a day on the admin's blocked list is never booked from the page |
| AdminHorarios.Iterar | frontend/src/pages/AdminHorariosPage.jsx:93-97 | after k turns the loop's time is exactly 30·k minutes after the start, with minutes still below 60 |
| AdminHorarios.GenerarSlotsHorario30m | frontend/src/pages/AdminHorariosPage.jsx:78-101 | one `HH:MM` slot every thirty minutes from the start up to the end inclusive: ⌊(end − start)/30⌋ + 1 of them, none when the end comes first, the first one the start |
| AdminHorarios.AvanzarMediaHora | frontend/src/pages/AdminHorariosPage.jsx:89-97 | one turn writes the current time and moves thirty minutes on |
| AdminHorarios.CantidadAlParar | frontend/src/pages/AdminHorariosPage.jsx:88 | a loop that stops at the first time past the end has made exactly the expected number of turns |
| AdminHorarios.SlotsCadaMediaHora | frontend/src/pages/AdminHorariosPage.jsx:93-97 | slots are thirty minutes per turn apart, so their times strictly increase |
| AdminHorarios.OpcionesHorario | frontend/src/pages/AdminHorariosPage.jsx:168-171 | the selectors offer 23 options from 09:00 to 20:00, each a valid 24-hour time that reads back as itself |
| AdminHorarios.SlotLegible | frontend/src/pages/AdminHorariosPage.jsx:89-91 | a written slot passes the hour check and splits back into its hour and minutes |
| AdminHorarios.CambiarCerrarDia | frontend/src/pages/AdminHorariosPage.jsx:261-281 | nothing without a selected day; otherwise that day is closed exactly when checked, closing drops its exception, and no other day changes |
| AdminHorarios.CambiarExcepcion | frontend/src/pages/AdminHorariosPage.jsx:283-301 | nothing without a selected day; otherwise only that day's exception changes: the edited field is set, and the exception is removed exactly when both fields end empty |
| AdminHorarios.EdicionesConsistentes | frontend/src/pages/AdminHorariosPage.jsx:274-294 | both edits keep every exception non-empty and off the closed days (exceptions are only editable for open days, lines 537 and 555) |
| AdminHorarios.CerrarYAbrir | frontend/src/pages/AdminHorariosPage.jsx:261-281 | closing then reopening a day restores the closed days and leaves only its exception dropped |
| AdminHorarios.BorrarExcepcion | frontend/src/pages/AdminHorariosPage.jsx:290-294 | clearing both fields of an exception removes it |
| Texto.Trim | backend/src/controllers/serviciosController.js:39-40 | `trim()` removes only white space, only at the two ends, and leaves no white space at either end |
| Texto.TrimIdempotente | backend/src/controllers/serviciosController.js:76-78 | trimming a trimmed text changes nothing |
| Texto.MinusculasIdempotente | backend/src/controllers/clientesController.js:26 | lower-casing a lower-cased address changes nothing |
| Texto.Partir | frontend/src/pages/MisCitasPage.jsx:49 | `split` gives at least one piece, none holding the separator, and joining them back gives the text |
| Texto.PartirUnir | frontend/src/pages/MisCitasPage.jsx:49 | splitting pieces joined by a separator they do not contain gives back those pieces |
| Texto.ParseInt | frontend/src/pages/MisCitasPage.jsx:50-52 | function for `parseInt(…, 10)`; its contract is stated by `Texto.ParseIntCifras` (a run of digits reads as its value, stopping at the first non-digit) and `Texto.ParseIntNatATexto` (it reads back what `String(n)` wrote) |
| Texto.ParseIntCifras | frontend/src/pages/MisCitasPage.jsx:50-52 | `parseInt(…, 10)` reads a run of digits as its value and stops at the first non-digit |
| Texto.ParseIntNatATexto | frontend/src/pages/MisCitasPage.jsx:50-52 | `parseInt` reads back the number `String(n)` wrote |
| Listas.Filtrar | frontend/src/pages/AgendarCitaPage.jsx:174 | `filter` keeps, in order, exactly the elements that pass |
| Listas.Ordenar | frontend/src/pages/MisCitasPage.jsx:110-121 | the sort by a numeric key returns a permutation ordered by that key |
| Listas.LosMenoresQue | frontend/src/pages/AdminDashboardPage.jsx:214-229 | filter, sort by key, take the first n: at most n, each kept element passes the filter and is taken no more often than it occurs among those that pass, in key order, and one that passes is left out only when n were kept, none with a larger key |
| Listas.Dedup | backend/src/controllers/horariosController.js:78-85 | `Array.from(new Set(…))` keeps the first occurrence of each value, in order, with no repeats and nothing lost |
| Listas.DedupIdempotente | backend/src/controllers/horariosController.js:78-85 | removing duplicates twice is removing them once |

## Left out

- Citas.CrearCita: the creators do not require the generated ids to be unused, since `new Types.ObjectId()` (`citasController.js` lines 53, 64) is left out as a parameter; with a reused `citaId` the model's map of appointments replaces the old record where `insertOne` would add a second one. The coherence lemma for a new booking (`Citas.ReservarPreservaCoherencia`) takes an unused id (`IdLibre`) as its hypothesis. Services, clients and users are sequences, so a reused id there adds a second record as the code does.
- HTTP, routing and database plumbing (`server.js`, `routes/*.js`, `config/db.js`) and the Mongoose schemas: wiring without logic; each handler is modelled as one call on the store.
- Concurrency: concurrent requests and the non-atomic sequences of writes are not modelled; each handler runs as one sequential step.
- The `catch` paths that answer 500 after a driver or runtime error are left out, except an invalid `ObjectId` in the services and clients handlers, which is the `idValido` flag.
- `bcrypt.hash`/`bcrypt.compare`, `new ObjectId()`, `Date.now()` and `new Date()` are parameters; their behaviour is not modelled.
- JavaScript `Date` arithmetic: weekday, month length, `toISOString` and its UTC shift, and the time stamp are inputs or abstract functions. The guard `Number.isNaN(fecha.getTime())` (AdminDashboardPage.jsx:20) is modelled for a part `parseInt` cannot read (`AdminDashboard.FechaRechazada`); a date whose year lies outside the range of `Date` is not modelled.
- Floating point: prices are `real`, `parseFloat` and `Number(x) || 0` are abstract readers (`None` for NaN), and the dashboard percentages use exact integer arithmetic in place of `Math.round` on doubles.
- Character classes: case mapping covers ASCII and Latin-1 letters only, and white space is the ECMAScript set; other Unicode is not modelled.
- JSON values of other types than text in request bodies (numbers sent for text fields, arrays sent for scalars) are not modelled, apart from the explicit `Array.isArray` and `typeof activo` checks.
- `fetch`, `alert`, `localStorage`, `console`, JSX rendering and React state scheduling: each handler's result is the new state or the request it would send; the responses are inputs.
- `serviciosController.actualizarServicio` reads `resultado.value`, whose shape depends on the driver version; the model answers 404 exactly when no document has the id.
- The auxiliary sort fields `_fechaHoraOrden` (MisCitasPage) and `_orden`/`_ts` (AdminDashboardPage) are never added: the sort keys are recomputed from each record, so the stripped output is the record itself.
- Listas.Ordenar: states a sorted permutation, not the stability of `Array.prototype.sort` and MongoDB's `sort`.
- Dates and labels shown only for display are not modelled: `formatearFechaLarga` (AdminCitasPage.jsx:13), `formatearFecha`, `formatearFechaCita` and `ultimaVisita` (AdminClientesPage.jsx:33, 71, 126), `formatearFechaTexto` and `obtenerClaseEstado` (MisCitasPage.jsx:142, 155), `mapCitasPorDia` and `barrasUltimos7` (AdminDashboardPage.jsx:232, 289).
- `handleVerHistorial` (AdminClientesPage.jsx:164) only fetches and shows a client's appointments; it has no logic beyond the request.
- The service toggle and delete buttons of AdminServiciosPage call callbacks of `App.jsx`, which is not part of this model; only the page's own edit (`manejarGuardarEdicion`) is.
- Services carry no `categoria` field in the store, so the catalogue search sees `""` there.
- `usuariosController` is modelled although `server.js` does not mount it.
- LoginPage, RegisterPage, HomePage and AdminConfigPage are form and navigation glue and are not part of this model.

## Findings

| source | as written | input that shows it | evidently intended | confidence | as-written member | corrected member |
|---|---|---|---|---|---|---|
| backend/src/controllers/clientesController.js:133 | `loginCliente` looks the client up by the `correo` exactly as typed, while `registrarCliente` (line 26) stores it trimmed and lower-cased | register with "Ana@correo.com", then log in with "Ana@correo.com": the lookup finds no client and answers 404 | normalise the address the same way before the lookup | medium, not executed | Clientes.LoginTrasRegistroFalla | Clientes.LoginCorregidoTrasRegistro |
