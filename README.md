# ParqueoApp backend core in Dafny

A model of the service layer of ParqueoApp, a Spring back end for a parking
lot. The model covers these areas:

- **Reservations.** Creating and updating them, forcing one to expire, the
  overlap query, and the scheduled sweep `liberarEspaciosReservadosExpirados`.
- **The QR gate.** Entry and exit scans (`EscaneoQRServiceImpl`) and the
  gate controller's `validarQR`, `registrarEntrada` and `registrarSalida`.
- **Sanctions.**
  - `crearConRegistrador` with its punishment table;
  - `actualizar` and the user-status refresh;
  - the automatic sanctions job;
  - the controller's `crearSancionCompleta`, `obtenerCastigoEstimado` and
    `desbloquearSancion`;
  - sanction details;
  - the parking rules and `procesarInfraccion`.
- **Login gate.** Both copies of `CustomUserDetailsService`.
- **CRUD.** The create, update and delete operations of users, vehicles and
  spaces, with their uniqueness and last-administrator guards.

## The database

The database is one value, `Entities.State`, with one map per table
(reservations, spaces, QRs, sanctions, sanction details, rules, users,
roles, vehicles). Every table takes its ids from one shared identity
counter, `nextId`. `Entities.Valid` states the foreign keys and unique
columns the schema enforces.

## How each operation is modelled

Each service operation is modelled twice:

1. **A pure function.** It maps a state to a `Step`, that is, the new state
   and `Ok(value)` or `Err(exception kind, message)`. Its guards are checked
   in the source's order and carry the source's messages.
2. **A method.** `…EnBd`, or the operation's own name where the source is a
   loop over the database. It runs on the class `Store.Db` (one field per
   table, `modifies` only the tables it saves to) and is proved to return
   the function's result and to leave the function's state.

The lemmas beside each function state what the source promises. They also
state what its code does where the two differ. In particular:

- The sweep only ever expires RESERVADO reservations, and its pass 1 frees
  no space.
- `crear` of a reservation runs no overlap check.
- Automatic sanctions get no detail, so they never count as previous
  offences.
- The automatic job's substring mark makes reservation 1 look already
  sanctioned once reservation 12 is.
- The automatic job reads the clock afresh in every `crearConRegistrador`
  call. Once one call of a run suspends a user, later calls of that run
  refuse the user, so the run sanctions them once. A rerun with the same
  readings changes nothing.
- The punishment estimate compares an enum with a String, so it counts 0
  and never names the punishment that is then applied.
- The administrator guard of user creation and update reads the role NAME
  while the role saved is the one the role id names.
- Administrators can all be deactivated.
- `procesarInfraccion` bypasses both the suspension check and the escalation
  table.
- A rule search for "e" returns every rule.
- The `parkingApp/` copy of the login gate locks strictly more users than
  the `src/` copy.

Time is an integer count of seconds. `Common` holds the shared string
helpers, the `Option`/`Result` types and the time arithmetic.

## Model

| member | source | states |
|---|---|---|
| ReservaRepository.FindReservasConflictivas | src/main/java/com/parqueo/parkingApp/repository/ReservaRepository.java:34-39 | Lists only stored RESERVADO or ACTIVO reservations whose space is stored, each with a stored conflicting partner (completeness is ConflictivasPorPares) |
| ReservaRepository.SolapeEsInterseccion | src/main/java/com/parqueo/parkingApp/repository/ReservaRepository.java:36-38 | For well-formed reservations the BETWEEN test is exactly "the closed intervals intersect" |
| ReservaRepository.ConflictoSimetrico | src/main/java/com/parqueo/parkingApp/repository/ReservaRepository.java:34-39 | For well-formed reservations the conflict relation is symmetric |
| ReservaRepository.SolapeAsimetricoSinOrden | src/main/java/com/parqueo/parkingApp/repository/ReservaRepository.java:36-38 | Without inicio <= fin the test is not symmetric (concrete pair) |
| ReservaRepository.ExtremosQueSeTocan | src/main/java/com/parqueo/parkingApp/repository/ReservaRepository.java:36-38 | Two reservations of one space that meet at one instant conflict |
| ReservaRepository.ConflictivasPorPares | src/main/java/com/parqueo/parkingApp/repository/ReservaRepository.java:34-39 | The query returns both members of every conflicting pair |
| ReservaRepository.FindReservasActivas | src/main/java/com/parqueo/parkingApp/repository/ReservaRepository.java:18-19 | The reservations in the given state that start at or after `now`, and only those |
| ReservaService.ValidarDatosReserva | src/main/java/com/parqueo/parkingApp/service/ReservaServiceImpl.java:606-622 | Refused exactly when a link or the state is missing, with IllegalArgumentException |
| ReservaService.ValidarFechasReserva | src/main/java/com/parqueo/parkingApp/service/ReservaServiceImpl.java:624-645 | Refused exactly when a bound is missing or the start is strictly after the end |
| ReservaService.ErrorDeDatos | src/main/java/com/parqueo/parkingApp/service/ReservaServiceImpl.java:104-113 | The validators, then the user, vehicle and space lookups, first failure wins |
| ReservaService.CrearCaracterizado | src/main/java/com/parqueo/parkingApp/service/ReservaServiceImpl.java:103-148 | Fails exactly when a check fails, saving nothing; otherwise a RESERVADO reservation with the dto's links and times, its space RESERVADO and one fresh ENTRADA QR |
| ReservaService.CrearPreservaValido | src/main/java/com/parqueo/parkingApp/service/ReservaServiceImpl.java:114-130 | crear keeps the database well formed when the token is fresh |
| ReservaService.CrearAdmiteSolape | src/main/java/com/parqueo/parkingApp/service/ReservaServiceImpl.java:103-148 | A reservation overlapping an existing one of the same space is stored, and both appear in the conflict query |
| ReservaService.GuardarReservaCreada | src/main/java/com/parqueo/parkingApp/service/ReservaServiceImpl.java:114-130 | The saves of crear leave exactly the state the function gives |
| ReservaService.CrearEnBd | src/main/java/com/parqueo/parkingApp/service/ReservaServiceImpl.java:103-148 | Returns crear's result and leaves crear's state |
| ReservaService.ErrorAlActualizar | src/main/java/com/parqueo/parkingApp/service/ReservaServiceImpl.java:152-177 | When no guard fails, the id is present and stored and the shared data checks pass |
| ReservaService.ActualizarEstadoFinal | src/main/java/com/parqueo/parkingApp/service/ReservaServiceImpl.java:158-164 | A FINALIZADO, CANCELADO or EXPIRADO reservation refuses any other state and keeps its own |
| ReservaService.ActualizarCaracterizado | src/main/java/com/parqueo/parkingApp/service/ReservaServiceImpl.java:151-217 | Fails with the first failing guard, saving nothing; otherwise the reservation holds the dto's fields and its creation instant, and the dto's space mirrors the new state |
| ReservaService.ActualizarNoSueltaEspacioAnterior | src/main/java/com/parqueo/parkingApp/service/ReservaServiceImpl.java:205-215 | Moving a reservation to another space leaves the old space's status as it was |
| ReservaService.GuardarReservaActualizada | src/main/java/com/parqueo/parkingApp/service/ReservaServiceImpl.java:205-216 | The saves of actualizar leave exactly the state the function gives |
| ReservaService.ActualizarEnBd | src/main/java/com/parqueo/parkingApp/service/ReservaServiceImpl.java:151-217 | Returns actualizar's result and leaves its state |
| ReservaService.ForzarRechaza | src/main/java/com/parqueo/parkingApp/service/ReservaServiceImpl.java:566-572 | A missing or non-RESERVADO reservation is refused and nothing changes |
| ReservaService.ForzarLibera | src/main/java/com/parqueo/parkingApp/service/ReservaServiceImpl.java:575-604 | A RESERVADO reservation becomes EXPIRADO and its space DISPONIBLE; success is reported exactly when the space exists |
| ReservaService.ForzarDosVeces | src/main/java/com/parqueo/parkingApp/service/ReservaServiceImpl.java:570-572 | Forcing twice: the second call is refused naming EXPIRADO and changes nothing |
| ReservaService.ForzarExpiracionEnBd | src/main/java/com/parqueo/parkingApp/service/ReservaServiceImpl.java:566-604 | Returns forzarExpiracionReserva's result and leaves its state |
| ReservaExpiracion.Pasada1Caracterizada | src/main/java/com/parqueo/parkingApp/service/ReservaServiceImpl.java:445-486 | Pass 1, in any list order, throws exactly when an overdue listed reservation has no space; otherwise it expires exactly the overdue listed ones |
| ReservaExpiracion.Pasada1NoLibera | src/main/java/com/parqueo/parkingApp/service/ReservaServiceImpl.java:459-462 | Pass 1 expires a reservation without freeing its space |
| ReservaExpiracion.Pasada2Caracterizada | src/main/java/com/parqueo/parkingApp/service/ReservaServiceImpl.java:490-561 | Pass 2, in any order, throws exactly when a selected reservation has no space; otherwise it expires each qualifying QR's reservation and frees its space |
| ReservaExpiracion.BarridoCaracterizado | src/main/java/com/parqueo/parkingApp/service/ReservaServiceImpl.java:439-564 | The job fails exactly when a pass meets a reservation without a space; otherwise it is pass 1 then pass 2 |
| ReservaExpiracion.BarridoSoloReservado | src/main/java/com/parqueo/parkingApp/service/ReservaServiceImpl.java:439-564 | Only RESERVADO reservations ever change, only to EXPIRADO; no row is added or removed and the other tables are untouched |
| ReservaExpiracion.BarridoExpiraVencidas | src/main/java/com/parqueo/parkingApp/service/ReservaServiceImpl.java:445-486 | After a successful job every RESERVADO reservation past its end is EXPIRADO |
| ReservaExpiracion.BarridoPasada2Sii | src/main/java/com/parqueo/parkingApp/service/ReservaServiceImpl.java:495-524 | A RESERVADO reservation not yet at its end expires exactly when it has an unused ENTRADA QR whose expiry, or start plus 30 minutes, is before now |
| ReservaExpiracion.NadaVencidoTrasBarrido | src/main/java/com/parqueo/parkingApp/service/ReservaServiceImpl.java:445-486 | After the job no RESERVADO reservation is past its end |
| ReservaExpiracion.NadaCaducadoTrasBarrido | src/main/java/com/parqueo/parkingApp/service/ReservaServiceImpl.java:490-561 | After the job no QR qualifies for pass 2 |
| ReservaExpiracion.BarridoIdempotente | src/main/java/com/parqueo/parkingApp/service/ReservaServiceImpl.java:439-564 | A second run at the same instant changes nothing |
| ReservaExpiracion.LiberarEspaciosReservadosExpirados | src/main/java/com/parqueo/parkingApp/service/ReservaServiceImpl.java:439-564 | The loops over the database return the job's result and leave its state |
| SancionesAutomaticas.MotivoLlevaMarca | src/main/java/com/parqueo/parkingApp/service/ReservaServiceImpl.java:689-699 | The reason the job writes contains the reservation's mark |
| SancionesAutomaticas.PasoSancionCrea | src/main/java/com/parqueo/parkingApp/service/ReservaServiceImpl.java:680-708 | A step stores a sanction exactly when the reservation is Sancionable (user, no mark, vehicle, space, crearConRegistrador accepts at the step's clock): one ACTIVA author-less sanction for the reservation's user and vehicle, marked, under the next id, any suspension starting at that clock; otherwise nothing changes |
| SancionesAutomaticas.YaSancionadaSeSalta | src/main/java/com/parqueo/parkingApp/service/ReservaServiceImpl.java:682-683 | A reservation already mentioned by a sanction of its user is skipped |
| SancionesAutomaticas.PasoSancionIdempotente | src/main/java/com/parqueo/parkingApp/service/ReservaServiceImpl.java:682-683 | Repeating a step with the same clock changes nothing more |
| SancionesAutomaticas.AnadirSinDetalleNoReincide | src/main/java/com/parqueo/parkingApp/service/ReservaServiceImpl.java:689-699 | A sanction no detail points at leaves every count of previous offences unchanged |
| SancionesAutomaticas.PasoSancionNoReincide | src/main/java/com/parqueo/parkingApp/service/ReservaServiceImpl.java:676-712 | After a step every user's count of every fault kind is unchanged |
| SancionesAutomaticas.MarcaDeUnoEnDoce | src/main/java/com/parqueo/parkingApp/service/ReservaServiceImpl.java:682-683 | The reason for reservation 12 contains the mark of reservation 1 |
| SancionesAutomaticas.UnoSaltadaPorDoce | src/main/java/com/parqueo/parkingApp/service/ReservaServiceImpl.java:682-683 | Hence reservation 1 is skipped once its user holds reservation 12's sanction |
| SancionesAutomaticas.PasoSancionSoloAnade | src/main/java/com/parqueo/parkingApp/service/ReservaServiceImpl.java:680-708 | A step only adds, if anything, the sanction of its reservation, and only if that reservation had no mark |
| SancionesAutomaticas.AplicarSoloAnade | src/main/java/com/parqueo/parkingApp/service/ReservaServiceImpl.java:676-712 | The job keeps the database well formed and only adds sanctions, each marked for a listed reservation that had no mark when the job started |
| SancionesAutomaticas.PasoSancionValido | src/main/java/com/parqueo/parkingApp/service/ReservaServiceImpl.java:676-712 | A step keeps the database well formed |
| SancionesAutomaticas.AplicarSancionesAutomaticas | src/main/java/com/parqueo/parkingApp/service/ReservaServiceImpl.java:676-712 | Over the exact EXPIRADO listing, with one clock reading per crearConRegistrador call, the loop returns the job's result and leaves its state |
| SancionesAutomaticas.PasoSancionSiguiente | src/main/java/com/parqueo/parkingApp/service/ReservaServiceImpl.java:680-708 | A step adds at most the sanction under the next id |
| SancionesAutomaticas.AplicarAlMasUnaPorReserva | src/main/java/com/parqueo/parkingApp/service/ReservaServiceImpl.java:676-712 | The job's new sanctions are exactly those under the ids from the old next id on, at most one per listed reservation |
| SancionesAutomaticas.PasoRepetido | src/main/java/com/parqueo/parkingApp/service/ReservaServiceImpl.java:680-708 | A step on a state that only has more sanctions than the first run's saves nothing |
| SancionesAutomaticas.AplicarReejecutar | src/main/java/com/parqueo/parkingApp/service/ReservaServiceImpl.java:676-712 | Rerunning the job on what a successful run left, same listing and clock readings, changes nothing and succeeds |
| SancionesAutomaticas.AplicarRespetaSuspension | src/main/java/com/parqueo/parkingApp/service/SancionServiceImpl.java:212-213 | A user suspended at every clock reading of the rest of the run gets no new sanction from it |
| SancionesAutomaticas.SuspendeTrasPaso | src/main/java/com/parqueo/parkingApp/service/SancionServiceImpl.java:250-266 | A suspension the first step stores is in effect at every later reading before its end |
| SancionesAutomaticas.SuspensionCortaLaRacha | src/main/java/com/parqueo/parkingApp/service/ReservaServiceImpl.java:676-712 | Once the run's first call suspends a user, later calls read before the suspension ends refuse the user: the run gives the user one sanction only |
| SancionesAutomaticas.AplicarFallaSii | src/main/java/com/parqueo/parkingApp/service/ReservaServiceImpl.java:680-683 | The job fails, with a NullPointerException, exactly when a listed reservation has no user |
| SancionesAutomaticas.AplicarFallaSiiExpirada | src/main/java/com/parqueo/parkingApp/service/ReservaServiceImpl.java:678-683 | Over the EXPIRADO listing, the job fails exactly when some EXPIRADO reservation has no user |
| SancionesAutomaticas.MarcaPersiste | src/main/java/com/parqueo/parkingApp/service/ReservaServiceImpl.java:682-683 | Adding sanctions never removes a mark |
| SancionesAutomaticas.ErrorAlCrearPersiste | src/main/java/com/parqueo/parkingApp/service/SancionServiceImpl.java:203-230 | A refusal of crearConRegistrador repeats on a state with more sanctions |
| EscaneoQrService.ValidarDatosEscaneo | src/main/java/com/parqueo/parkingApp/service/EscaneoQRServiceImpl.java:208-216 | Refused exactly when the reservation id or the entry instant is missing |
| EscaneoQrService.CrearEscaneoCaracterizado | src/main/java/com/parqueo/parkingApp/service/EscaneoQRServiceImpl.java:48-54 | Never succeeds: a dto missing the reservation id or entry instant fails validation, any other is refused by save because the built entity (fresh token, entry instant `now`, the dto's kind and start of validity) has no reservation |
| EscaneoQrService.ErrorDeBusqueda | src/main/java/com/parqueo/parkingApp/service/EscaneoQRServiceImpl.java:89-106 | The guards: id present, reservation stored, QR linked |
| EscaneoQrService.ObtenerPorReserva | src/main/java/com/parqueo/parkingApp/service/EscaneoQRServiceImpl.java:153-180 | The QR of the reservation, or the lookup's error |
| EscaneoQrService.EntradaCaracterizada | src/main/java/com/parqueo/parkingApp/service/EscaneoQRServiceImpl.java:88-119 | Fails exactly when a guard fails, changing nothing; otherwise the QR records the entry and becomes SALIDA with a fresh token, the reservation ACTIVO and the space OCUPADO |
| EscaneoQrService.EntradaDe | src/main/java/com/parqueo/parkingApp/service/EscaneoQRServiceImpl.java:100-116 | The entry scan of a reservation with a QR is that QR's rewrite |
| EscaneoQrService.EntradaPreservaValido | src/main/java/com/parqueo/parkingApp/service/EscaneoQRServiceImpl.java:88-119 | An entry scan keeps the database well formed when the token is fresh |
| EscaneoQrService.EntradaReabreFinalizada | src/main/java/com/parqueo/parkingApp/service/EscaneoQRServiceImpl.java:109-110 | A FINALIZADO reservation scanned at the entry becomes ACTIVO again |
| EscaneoQrService.GuardarEntrada | src/main/java/com/parqueo/parkingApp/service/EscaneoQRServiceImpl.java:100-116 | The three saves leave the entry scan's state |
| EscaneoQrService.RegistrarEntradaEnBd | src/main/java/com/parqueo/parkingApp/service/EscaneoQRServiceImpl.java:88-119 | Returns the entry scan's result and leaves its state |
| EscaneoQrService.SalidaCaracterizada | src/main/java/com/parqueo/parkingApp/service/EscaneoQRServiceImpl.java:122-150 | Succeeds exactly when the guards pass and the QR is SALIDA; then the QR is SALIDA_USADA, the reservation FINALIZADO, the space DISPONIBLE |
| EscaneoQrService.SalidaDe | src/main/java/com/parqueo/parkingApp/service/EscaneoQRServiceImpl.java:135-147 | The exit scan of a reservation with a SALIDA QR is that QR's rewrite |
| EscaneoQrService.ClavesConservadas | src/main/java/com/parqueo/parkingApp/service/EscaneoQRServiceImpl.java:135-147 | In-place rewrites that keep tokens and links keep the database well formed |
| EscaneoQrService.SalidaNoSeRepite | src/main/java/com/parqueo/parkingApp/service/EscaneoQRServiceImpl.java:132-134 | A second exit scan throws IllegalStateException and changes nothing |
| EscaneoQrService.EntradaYSalida | src/main/java/com/parqueo/parkingApp/service/EscaneoQRServiceImpl.java:88-150 | Entry then exit ends FINALIZADO with the space DISPONIBLE and the QR SALIDA_USADA holding both instants |
| EscaneoQrService.GuardarSalida | src/main/java/com/parqueo/parkingApp/service/EscaneoQRServiceImpl.java:135-147 | The three saves leave the exit scan's state |
| EscaneoQrService.RegistrarSalidaEnBd | src/main/java/com/parqueo/parkingApp/service/EscaneoQRServiceImpl.java:122-150 | Returns the exit scan's result and leaves its state |
| ValidacionController.QrUsado | parkingApp/src/main/java/com/parqueo/parkingApp/controller/ValidacionController.java:71-77 | The QR with the token and the requested kind, else any QR with the token |
| ValidacionController.NoEncontradoSii | parkingApp/src/main/java/com/parqueo/parkingApp/controller/ValidacionController.java:78-83 | "Not found" exactly when no QR carries the token |
| ValidacionController.QrUsadoEsElDelToken | parkingApp/src/main/java/com/parqueo/parkingApp/controller/ValidacionController.java:71-77 | With unique tokens the requested kind does not choose the QR |
| ValidacionController.DictamenCaracterizado | parkingApp/src/main/java/com/parqueo/parkingApp/controller/ValidacionController.java:86-156 | For a known token only an ENTRADA request outside its window is negative; every other answer is valid with the stored kind and the reservation's details |
| ValidacionController.TrasEntradaYaValidada | parkingApp/src/main/java/com/parqueo/parkingApp/controller/ValidacionController.java:97-116 | After an entry scan the new token answers "already used for entry" once the window is open |
| ValidacionController.TrasEntradaSalidaValida | parkingApp/src/main/java/com/parqueo/parkingApp/controller/ValidacionController.java:117-156 | After an entry scan the new token is a valid exit QR |
| ValidacionController.TrasEntradaTokenRetirado | parkingApp/src/main/java/com/parqueo/parkingApp/controller/ValidacionController.java:78-83 | After an entry scan the old token is no longer known |
| ValidacionController.TrasSalida | parkingApp/src/main/java/com/parqueo/parkingApp/controller/ValidacionController.java:117-137 | After an exit scan an exit request answers "already used" |
| ValidacionController.ValidarQrEnBd | parkingApp/src/main/java/com/parqueo/parkingApp/controller/ValidacionController.java:67-157 | validarQR on the database returns the function's answer and changes nothing |
| ValidacionController.RegistrarEntradaSii | parkingApp/src/main/java/com/parqueo/parkingApp/controller/ValidacionController.java:161-207 | Succeeds exactly for the token of an ENTRADA QR of a RESERVADO reservation; a refusal changes nothing |
| ValidacionController.RegistrarEntradaAdmitida | parkingApp/src/main/java/com/parqueo/parkingApp/controller/ValidacionController.java:183-206 | An admitted entry is the service's entry scan, answered with the reservation's details |
| ValidacionController.RegistrarSalidaSii | parkingApp/src/main/java/com/parqueo/parkingApp/controller/ValidacionController.java:211-257 | Succeeds exactly for the token of a SALIDA QR of an ACTIVO reservation; a refusal changes nothing |
| ValidacionController.RegistrarSalidaAdmitida | parkingApp/src/main/java/com/parqueo/parkingApp/controller/ValidacionController.java:211-257 | An admitted exit is the service's exit scan |
| ValidacionController.EntradaNoSeRepite | parkingApp/src/main/java/com/parqueo/parkingApp/controller/ValidacionController.java:161-207 | After a successful entry the same token finds no ENTRADA QR |
| ValidacionController.EntradaYSalidaRegistradas | parkingApp/src/main/java/com/parqueo/parkingApp/controller/ValidacionController.java:161-257 | Entry then exit through the gate ends FINALIZADO with the QR SALIDA_USADA |
| ValidacionController.RegistrarEnBd | parkingApp/src/main/java/com/parqueo/parkingApp/controller/ValidacionController.java:161-257 | Both registrations on the database return the function's result and leave its state |
| SancionService.NombresDeCastigo | src/main/java/com/parqueo/parkingApp/service/SancionServiceImpl.java:242-272 | The two suspension names are suspensions, the warning is not |
| SancionService.CuentaReincidencia | src/main/java/com/parqueo/parkingApp/service/SancionServiceImpl.java:233-240 | The count is exactly the user's ACTIVA or RESUELTA sanctions with a detail of the same kind |
| SancionService.ReincidenciasSinDetalle | src/main/java/com/parqueo/parkingApp/service/SancionServiceImpl.java:233-240 | A sanction without details changes no count |
| SancionService.TablaLeve | src/main/java/com/parqueo/parkingApp/service/SancionServiceImpl.java:242-256 | LEVE: 0-1 warning, 2 a week, 3+ a month |
| SancionService.TablaGrave | src/main/java/com/parqueo/parkingApp/service/SancionServiceImpl.java:257-272 | GRAVE: 0 warning, 1 a week, 2+ a month |
| SancionService.GravedadMonotona | src/main/java/com/parqueo/parkingApp/service/SancionServiceImpl.java:242-272 | Severity never decreases with the count, and GRAVE is at least as hard as LEVE |
| SancionService.VentanaSiiSuspension | src/main/java/com/parqueo/parkingApp/service/SancionServiceImpl.java:242-272 | The window exists exactly for suspensions and ends strictly after `now` |
| SancionService.SuspensionNoEfectivaAlCrearla | src/main/java/com/parqueo/parkingApp/service/SancionServiceImpl.java:320-328 | A suspension from `now` is not in effect at `now`, and is at every later instant before its end |
| SancionService.ValidarDatosSancion | src/main/java/com/parqueo/parkingApp/service/SancionServiceImpl.java:367-395 | The first failed check, or none |
| SancionService.EstadoUsuarioCorrecto | src/main/java/com/parqueo/parkingApp/service/SancionServiceImpl.java:318-365 | The user's flag and every vehicle's flag become "not suspended", nothing else changes |
| SancionService.EstadoUsuarioIdempotente | src/main/java/com/parqueo/parkingApp/service/SancionServiceImpl.java:318-365 | Running the refresh twice equals running it once |
| SancionService.ActualizarEstadoUsuarioPorSanciones | src/main/java/com/parqueo/parkingApp/service/SancionServiceImpl.java:318-365 | The method leaves the function's state |
| SancionService.FijarActivoEnBd | src/main/java/com/parqueo/parkingApp/service/SancionServiceImpl.java:339-346 | The loop saves every vehicle of the user with the flag and nothing else |
| SancionService.ErrorAlCrear | src/main/java/com/parqueo/parkingApp/service/SancionServiceImpl.java:205-231 | When no check fails, the dto is valid and its user, vehicle and rule are stored |
| SancionService.CrearRechazaSuspendido | src/main/java/com/parqueo/parkingApp/service/SancionServiceImpl.java:205-217 | A user with a suspension in effect is refused with IllegalArgumentException and nothing is saved |
| SancionService.CrearGuarda | src/main/java/com/parqueo/parkingApp/service/SancionServiceImpl.java:203-311 | A failure saves nothing; a success stores one sanction with the table's punishment and changes no other sanction, detail or reservation |
| SancionService.CrearMismoInstanteDejaActivo | src/main/java/com/parqueo/parkingApp/service/SancionServiceImpl.java:308 | A status refresh at the same instant leaves the user active even after a suspension |
| SancionService.CrearSuspensionDesactiva | src/main/java/com/parqueo/parkingApp/service/SancionServiceImpl.java:308 | A refresh later inside the new window deactivates the user and their vehicles |
| SancionService.GuardarNuevaSancion | src/main/java/com/parqueo/parkingApp/service/SancionServiceImpl.java:276 | The save takes the next id |
| SancionService.CrearConRegistradorEnBd | src/main/java/com/parqueo/parkingApp/service/SancionServiceImpl.java:203-311 | Returns crearConRegistrador's result and leaves its state |
| SancionService.ErrorAlActualizar | src/main/java/com/parqueo/parkingApp/service/SancionServiceImpl.java:78-95 | When no check fails, the id is stored, the dto valid and its user and vehicle stored |
| SancionService.ActualizarConserva | src/main/java/com/parqueo/parkingApp/service/SancionServiceImpl.java:77-127 | The field merge of actualizar; nothing saved on failure |
| SancionService.GuardarSancionActualizada | src/main/java/com/parqueo/parkingApp/service/SancionServiceImpl.java:96-125 | The save leaves actualizar's state |
| SancionService.ActualizarEnBd | src/main/java/com/parqueo/parkingApp/service/SancionServiceImpl.java:77-127 | Returns actualizar's result and leaves its state |
| SancionController.EstimacionNuncaCuenta | src/main/java/com/parqueo/parkingApp/controller/SancionController.java:268-271 | The estimate's count is 0, so it misses every previous offence the applied table sees |
| SancionController.EstimacionCaracterizada | src/main/java/com/parqueo/parkingApp/controller/SancionController.java:261-300 | Fails exactly for an unknown rule; otherwise it depends only on the rule's kind |
| SancionController.EstimacionIgnoraHistorial | src/main/java/com/parqueo/parkingApp/controller/SancionController.java:261-300 | The same rules give the same estimate for any sanction history |
| SancionController.NombresEstimados | src/main/java/com/parqueo/parkingApp/controller/SancionController.java:276-294 | Every estimated name but the LEVE warning mentions a suspension |
| SancionController.TablaEstimada | src/main/java/com/parqueo/parkingApp/controller/SancionController.java:276-294 | The estimate's windows: 7 or 30 days for one previous offence, none otherwise |
| SancionController.EstimacionNuncaCoincide | src/main/java/com/parqueo/parkingApp/controller/SancionController.java:276-294 | The estimate never names a punishment the applied table can give |
| SancionController.EstimacionNoAnticipa | src/main/java/com/parqueo/parkingApp/controller/SancionController.java:261-300 | For LEVE with one previous offence the estimate and the stored punishment differ |
| SancionController.DescripcionPorDefecto | src/main/java/com/parqueo/parkingApp/controller/SancionController.java:194-204 | The default detail description passes the detail validator |
| SancionController.DtoDetalleValido | src/main/java/com/parqueo/parkingApp/controller/SancionController.java:194-204 | Only the description can make the detail dto fail validation |
| SancionController.AnadirDetalleAceptado | src/main/java/com/parqueo/parkingApp/controller/SancionController.java:194-204 | A valid description adds an ACTIVO detail under the next id, linked to the sanction and rule |
| SancionController.AnadirDetalleRechazado | src/main/java/com/parqueo/parkingApp/controller/SancionController.java:194-204 | An invalid description is an IllegalArgumentException and nothing more is saved |
| SancionController.SancionCreada | src/main/java/com/parqueo/parkingApp/controller/SancionController.java:191 | What crearConRegistrador leaves on success: one new sanction, other tables' ids unchanged |
| SancionController.CompletaRechazada | src/main/java/com/parqueo/parkingApp/controller/SancionController.java:191 | A refusal of crearConRegistrador is passed on and nothing is saved |
| SancionController.CompletaDe | src/main/java/com/parqueo/parkingApp/controller/SancionController.java:191-204 | On acceptance the detail is added to what crearConRegistrador left |
| SancionController.CompletaSii | src/main/java/com/parqueo/parkingApp/controller/SancionController.java:168-223 | Succeeds exactly when crearConRegistrador accepts and the description is valid |
| SancionController.CompletaGuarda | src/main/java/com/parqueo/parkingApp/controller/SancionController.java:168-223 | Success stores the sanction and, under the id after it, its ACTIVO detail linked to the rule |
| SancionController.CompletaSinDetalle | src/main/java/com/parqueo/parkingApp/controller/SancionController.java:191-204 | An invalid description leaves the sanction saved without a detail, so it never counts |
| SancionController.AnadirConDetalleCuenta | src/main/java/com/parqueo/parkingApp/service/SancionServiceImpl.java:233-240 | A new ACTIVA sanction with a detail of kind `tipo` counts for that kind and changes no other standing |
| SancionController.CompletaCuenta | src/main/java/com/parqueo/parkingApp/controller/SancionController.java:168-223 | After a complete creation the new sanction counts as a previous offence of the rule's kind |
| SancionController.CrearSancionCompletaEnBd | src/main/java/com/parqueo/parkingApp/controller/SancionController.java:168-223 | Returns the complete creation's result and leaves its state |
| SancionController.ReglaDeDetalle | src/main/java/com/parqueo/parkingApp/mapper/SancionMapper.java:15-17 | The rule id is null exactly when the sanction has no detail |
| SancionController.ActualizarIgnoraRegla | src/main/java/com/parqueo/parkingApp/service/SancionServiceImpl.java:78-86 | actualizar reads the dto's rule id only to check that it is present |
| SancionController.MezclaIgnoraRegla | src/main/java/com/parqueo/parkingApp/service/SancionServiceImpl.java:96-106 | The field merge does not read the rule id |
| SancionController.DesbloquearSii | src/main/java/com/parqueo/parkingApp/controller/SancionController.java:322-351 | Succeeds exactly for a stored sanction with a detail whose fields pass validation; refusals save nothing |
| SancionController.DesbloquearSinDetalle | src/main/java/com/parqueo/parkingApp/controller/SancionController.java:322-351 | A sanction without details can never be unblocked |
| SancionController.AutomaticaNoSeDesbloquea | src/main/java/com/parqueo/parkingApp/service/ReservaServiceImpl.java:689-699 | The sanction the automatic job stores cannot be unblocked |
| SancionController.DesbloquearResuelve | src/main/java/com/parqueo/parkingApp/controller/SancionController.java:331-332 | Unblocking stores the sanction RESUELTA, changes no other sanction, and it is no longer in effect |
| SancionController.DesbloquearReactiva | src/main/java/com/parqueo/parkingApp/service/SancionServiceImpl.java:318-365 | With no other suspension in effect, unblocking reactivates the user and their vehicles |
| SancionController.DesbloquearSancionEnBd | src/main/java/com/parqueo/parkingApp/controller/SancionController.java:322-351 | Returns the unblock's result and leaves its state |
| SancionDetalleService.ValidarDatosSancionDetalle | parkingApp/src/main/java/com/parqueo/parkingApp/service/SancionDetalleServiceImpl.java:106-131 | The first failed check, or none |
| SancionDetalleService.CrearVincula | parkingApp/src/main/java/com/parqueo/parkingApp/service/SancionDetalleServiceImpl.java:50-62 | Succeeds exactly for a valid dto naming a stored sanction and rule; adds one linked detail, a failure changes nothing |
| SancionDetalleService.CrearPreservaValido | parkingApp/src/main/java/com/parqueo/parkingApp/service/SancionDetalleServiceImpl.java:50-62 | crear keeps the database well formed |
| SancionDetalleService.CrearEnBd | parkingApp/src/main/java/com/parqueo/parkingApp/service/SancionDetalleServiceImpl.java:50-62 | Returns crear's result and leaves its state |
| SancionDetalleService.ErrorDeId | parkingApp/src/main/java/com/parqueo/parkingApp/service/SancionDetalleServiceImpl.java:66-71 | The id guards: present and stored |
| SancionDetalleService.Actualizar | parkingApp/src/main/java/com/parqueo/parkingApp/service/SancionDetalleServiceImpl.java:65-81 | The id guards come before validation, and the entity built has no links |
| SancionDetalleService.EliminarQuitaUno | parkingApp/src/main/java/com/parqueo/parkingApp/service/SancionDetalleServiceImpl.java:83-93 | Removes exactly the named detail, or throws and changes nothing |
| SancionDetalleService.EliminarEnBd | parkingApp/src/main/java/com/parqueo/parkingApp/service/SancionDetalleServiceImpl.java:83-93 | Returns eliminar's result and leaves its state |
| SancionDetalleService.BuscarPorSancion | parkingApp/src/main/java/com/parqueo/parkingApp/service/SancionDetalleServiceImpl.java:96-104 | Exactly the ids of the sanction's details |
| CustomUserDetailsService.UsuarioPorNombre | src/main/java/com/parqueo/parkingApp/security/CustomUserDetailsService.java:31-32 | The user with that username, if any |
| CustomUserDetailsService.PrimeraSuspension | src/main/java/com/parqueo/parkingApp/security/CustomUserDetailsService.java:40-53 | Some suspension of the user in effect at `now`, exactly when one exists |
| CustomUserDetailsService.LoadPorNombre | src/main/java/com/parqueo/parkingApp/security/CustomUserDetailsService.java:30-91 | Unknown username: UsernameNotFoundException; otherwise the gate applied to that user |
| CustomUserDetailsService.BloqueoSii | src/main/java/com/parqueo/parkingApp/security/CustomUserDetailsService.java:40-72 | Locked exactly when a suspension is in effect and no reservation is in progress or expired |
| CustomUserDetailsService.ExencionPorReserva | src/main/java/com/parqueo/parkingApp/security/CustomUserDetailsService.java:55-60 | A suspended user with such a reservation logs in as if not suspended |
| CustomUserDetailsService.DetallesDelRol | src/main/java/com/parqueo/parkingApp/security/CustomUserDetailsService.java:78-90 | Details come from the role, disabled exactly when inactive; only a missing role fails |
| CustomUserDetailsService.TiempoRestante | src/main/java/com/parqueo/parkingApp/security/CustomUserDetailsService.java:61-72 | The message's days and hours are the remaining time rounded down, hours below 24 |
| CustomUserDetailsServiceApp.LoadPorNombre | parkingApp/src/main/java/com/parqueo/parkingApp/security/CustomUserDetailsService.java:28-71 | Unknown username: UsernameNotFoundException; otherwise the gate applied to that user |
| CustomUserDetailsServiceApp.BloqueoSii | parkingApp/src/main/java/com/parqueo/parkingApp/security/CustomUserDetailsService.java:36-55 | Locked exactly when a suspension is in effect; the message ends with "\|" and its end |
| CustomUserDetailsServiceApp.BloqueaMasQueGate | parkingApp/src/main/java/com/parqueo/parkingApp/security/CustomUserDetailsService.java:36-55 | This copy locks every user the src copy locks |
| CustomUserDetailsServiceApp.DifiereSoloEnExencion | parkingApp/src/main/java/com/parqueo/parkingApp/security/CustomUserDetailsService.java:36-55 | It also locks suspended users with a reservation, and agrees on users without a suspension |
| UsuarioService.ValidarDatosUsuario | src/main/java/com/parqueo/parkingApp/service/UsuarioServiceImpl.java:231-249 | The first failed check, or none |
| UsuarioService.ErrorDeId | src/main/java/com/parqueo/parkingApp/service/UsuarioServiceImpl.java:79-86 | The id guards: present and stored |
| UsuarioService.ErrorUnicoAdmin | src/main/java/com/parqueo/parkingApp/service/UsuarioServiceImpl.java:113-129 | The role must exist and the user must not be its only holder |
| UsuarioService.BuscarRolAdmin | src/main/java/com/parqueo/parkingApp/service/UsuarioServiceImpl.java:113-129 | The administrator role's id, or none |
| UsuarioService.CrearSii | src/main/java/com/parqueo/parkingApp/service/UsuarioServiceImpl.java:54-76 | Succeeds exactly for a valid dto with unused username and e-mail, an existing role and, when it names the admin role (Java's equalsIgnoreCase, ı/İ/ſ included), no admin yet |
| UsuarioService.NombraAdminSii | src/main/java/com/parqueo/parkingApp/service/UsuarioServiceImpl.java:64 | A role name names the admin exactly when it has 13 characters, each a case variant of the letter of ADMINISTRADOR, including ı and İ for I and ſ for S |
| UsuarioService.NombraAdminConISinPunto | src/main/java/com/parqueo/parkingApp/service/UsuarioServiceImpl.java:64 | "admınıstrador", with the dotless ı, names the admin role |
| Common.IgualLetraMayusculaSii | src/main/java/com/parqueo/parkingApp/service/UsuarioServiceImpl.java:64 | Per character, equalsIgnoreCase against a capital ASCII letter accepts exactly that letter, its small letter and the non-ASCII forms folding onto it (ı, İ, ſ, the Kelvin sign) |
| Common.EqualsIgnoreCaseMayusculasSii | src/main/java/com/parqueo/parkingApp/service/UsuarioServiceImpl.java:64 | Against a text of capital ASCII letters, equalsIgnoreCase accepts exactly the same-length texts spelling each letter by one of its variants |
| UsuarioService.CrearUnicos | src/main/java/com/parqueo/parkingApp/service/UsuarioServiceImpl.java:54-76 | crear keeps usernames and e-mails unique |
| UsuarioService.CrearNoDuplicaAdminPorNombre | src/main/java/com/parqueo/parkingApp/service/UsuarioServiceImpl.java:54-76 | A request naming the admin role (per Java's equalsIgnoreCase) is saved only when no admin exists, and then it is the only one |
| UsuarioService.CrearSegundoAdminPorId | src/main/java/com/parqueo/parkingApp/service/UsuarioServiceImpl.java:54-76 | Giving the admin's role id without its name creates a second admin |
| UsuarioService.CrearEnBd | src/main/java/com/parqueo/parkingApp/service/UsuarioServiceImpl.java:54-76 | Returns crear's result and leaves its state |
| UsuarioService.ErrorAlActualizar | src/main/java/com/parqueo/parkingApp/service/UsuarioServiceImpl.java:78-111 | When no check fails, the id is stored, the dto valid and its role stored |
| UsuarioService.ActualizarConserva | src/main/java/com/parqueo/parkingApp/service/UsuarioServiceImpl.java:78-111 | Refuses null or unknown ids and another user's username or e-mail; rewrites only that user, password stored as given |
| UsuarioService.ActualizarUnicos | src/main/java/com/parqueo/parkingApp/service/UsuarioServiceImpl.java:78-111 | actualizar keeps usernames and e-mails unique |
| UsuarioService.ActualizarNoPromueveConAdmin | src/main/java/com/parqueo/parkingApp/service/UsuarioServiceImpl.java:78-111 | Naming the admin role (per Java's equalsIgnoreCase) promotes only when no admin exists |
| UsuarioService.ActualizarDegradaUnicoAdmin | src/main/java/com/parqueo/parkingApp/service/UsuarioServiceImpl.java:78-111 | The only admin updated with another role id and no role name leaves no admin |
| UsuarioService.ActualizarEnBd | src/main/java/com/parqueo/parkingApp/service/UsuarioServiceImpl.java:78-111 | Returns actualizar's result and leaves its state |
| UsuarioService.EliminarConservaAdmin | src/main/java/com/parqueo/parkingApp/service/UsuarioServiceImpl.java:113-129 | Removes one user who owns nothing and is not the only admin; a system with an admin keeps one |
| UsuarioService.EliminarEnBd | src/main/java/com/parqueo/parkingApp/service/UsuarioServiceImpl.java:113-129 | Returns eliminar's result and leaves its state |
| UsuarioService.DesactivarSii | src/main/java/com/parqueo/parkingApp/service/UsuarioServiceImpl.java:134-146 | Clears only that user's activo, refusing the only admin |
| UsuarioService.ActivarSii | src/main/java/com/parqueo/parkingApp/service/UsuarioServiceImpl.java:151-159 | Sets only that user's activo |
| UsuarioService.DesactivarActivar | src/main/java/com/parqueo/parkingApp/service/UsuarioServiceImpl.java:134-159 | Deactivation then activation restores an active user |
| UsuarioService.DesactivarAmbosAdmins | src/main/java/com/parqueo/parkingApp/service/UsuarioServiceImpl.java:134-146 | With two admins both can be deactivated, leaving no active admin |
| UsuarioService.DesactivarEnBd | src/main/java/com/parqueo/parkingApp/service/UsuarioServiceImpl.java:134-146 | Returns desactivarUsuario's result and leaves its state |
| UsuarioService.ActivarEnBd | src/main/java/com/parqueo/parkingApp/service/UsuarioServiceImpl.java:151-159 | Returns activarUsuario's result and leaves its state |
| UsuarioService.EliminarCompletoConservaAdmin | src/main/java/com/parqueo/parkingApp/service/UsuarioServiceImpl.java:164-188 | Succeeds exactly for a stored user who is not the only admin; then removes the user, the user's sanctions (and those on the user's vehicles), reservations and vehicles, changes no other user, sanction, space or role, and a system with an admin keeps one; a failure changes nothing |
| UsuarioService.EliminarUsuarioCompletoEnBd | src/main/java/com/parqueo/parkingApp/service/UsuarioServiceImpl.java:164-188 | Returns eliminarUsuarioCompleto's result and leaves its state |
| VehiculoService.ValidarDatosVehiculo | src/main/java/com/parqueo/parkingApp/service/VehiculoServiceImpl.java:176-203 | The first failed check, or none |
| VehiculoService.PlacaValidaNoVacia | src/main/java/com/parqueo/parkingApp/service/VehiculoServiceImpl.java:176-203 | A plate of the accepted format never trims to nothing |
| VehiculoService.PlacaFormato | src/main/java/com/parqueo/parkingApp/service/VehiculoServiceImpl.java:180 | A plate passes the format check exactly when it has six characters, three of A-Z followed by three of 0-9 |
| VehiculoService.CrearSii | src/main/java/com/parqueo/parkingApp/service/VehiculoServiceImpl.java:43-57 | Succeeds exactly for a valid dto with an unused plate and an existing user; adds one vehicle with defaults |
| VehiculoService.CrearPlacasUnicas | src/main/java/com/parqueo/parkingApp/service/VehiculoServiceImpl.java:43-57 | crear keeps plates unique |
| VehiculoService.CrearEnBd | src/main/java/com/parqueo/parkingApp/service/VehiculoServiceImpl.java:43-57 | Returns crear's result and leaves its state |
| VehiculoService.ErrorAlActualizar | src/main/java/com/parqueo/parkingApp/service/VehiculoServiceImpl.java:60-74 | The id and its row come before the dto |
| VehiculoService.ActualizarConserva | src/main/java/com/parqueo/parkingApp/service/VehiculoServiceImpl.java:60-97 | Refuses another vehicle's plate; only that vehicle changes, keeping activo and date where the dto is silent |
| VehiculoService.ActualizarMismaPlaca | src/main/java/com/parqueo/parkingApp/service/VehiculoServiceImpl.java:71-74 | A vehicle may keep its own plate |
| VehiculoService.ActualizarPlacasUnicas | src/main/java/com/parqueo/parkingApp/service/VehiculoServiceImpl.java:60-97 | actualizar keeps plates unique |
| VehiculoService.ActualizarEnBd | src/main/java/com/parqueo/parkingApp/service/VehiculoServiceImpl.java:60-97 | Returns actualizar's result and leaves its state |
| VehiculoService.EliminarQuitaUno | src/main/java/com/parqueo/parkingApp/service/VehiculoServiceImpl.java:100-110 | Removes exactly the named vehicle, or throws and changes nothing |
| VehiculoService.BuscarTodosPorUsuario | src/main/java/com/parqueo/parkingApp/service/VehiculoServiceImpl.java:136-145 | Exactly the user's vehicles |
| VehiculoService.BuscarPorUsuario | src/main/java/com/parqueo/parkingApp/service/VehiculoServiceImpl.java:122-131 | Exactly the user's active vehicles |
| VehiculoService.BuscarPorTipo | src/main/java/com/parqueo/parkingApp/service/VehiculoServiceImpl.java:148-156 | Exactly the active vehicles of that kind |
| VehiculoService.SoloActivos | src/main/java/com/parqueo/parkingApp/service/VehiculoServiceImpl.java:122-156 | buscarPorUsuario is buscarTodosPorUsuario without the inactive ones |
| EspacioService.ValidarDatosEspacio | parkingApp/src/main/java/com/parqueo/parkingApp/service/EspacioDisponibleServiceImpl.java:129-145 | The first failed check, or none |
| EspacioService.CrearConDefectos | parkingApp/src/main/java/com/parqueo/parkingApp/service/EspacioDisponibleServiceImpl.java:37-49 | Succeeds exactly on a valid dto; adds one space with the defaults filled in |
| EspacioService.CrearEnBd | parkingApp/src/main/java/com/parqueo/parkingApp/service/EspacioDisponibleServiceImpl.java:37-49 | Returns crear's result and leaves its state |
| EspacioService.ErrorAlActualizar | parkingApp/src/main/java/com/parqueo/parkingApp/service/EspacioDisponibleServiceImpl.java:53-62 | The id and its row come before the dto |
| EspacioService.ActualizarProtegeEstado | parkingApp/src/main/java/com/parqueo/parkingApp/service/EspacioDisponibleServiceImpl.java:52-85 | A RESERVADO or OCUPADO space keeps its status; any other takes the dto's; only that space changes |
| EspacioService.ActualizarIdempotente | parkingApp/src/main/java/com/parqueo/parkingApp/service/EspacioDisponibleServiceImpl.java:52-85 | Repeating an update changes nothing more |
| EspacioService.ActualizarEnBd | parkingApp/src/main/java/com/parqueo/parkingApp/service/EspacioDisponibleServiceImpl.java:52-85 | Returns actualizar's result and leaves its state |
| EspacioService.EliminarQuitaUno | parkingApp/src/main/java/com/parqueo/parkingApp/service/EspacioDisponibleServiceImpl.java:88-98 | Removes exactly the named space, or throws and changes nothing |
| EspacioService.EliminarEnBd | parkingApp/src/main/java/com/parqueo/parkingApp/service/EspacioDisponibleServiceImpl.java:88-98 | Returns eliminar's result and leaves its state |
| EspacioService.BuscarPorEstado | parkingApp/src/main/java/com/parqueo/parkingApp/service/EspacioDisponibleServiceImpl.java:101-109 | Refused exactly for a null status; otherwise exactly the spaces with that status |
| EspacioService.BuscarPorZona | parkingApp/src/main/java/com/parqueo/parkingApp/service/EspacioDisponibleServiceImpl.java:112-120 | Refused exactly for a zone without text; otherwise exactly the spaces of that zone |
| EspacioService.DisponiblesExactos | parkingApp/src/main/java/com/parqueo/parkingApp/service/EspacioDisponibleServiceImpl.java:123-127 | Exactly the DISPONIBLE spaces |
| EspacioService.ActualizarNoLibera | parkingApp/src/main/java/com/parqueo/parkingApp/service/EspacioDisponibleServiceImpl.java:79-83 | A space kept RESERVADO or OCUPADO is never listed as available |
| ReglaService.ValidarDatosRegla | src/main/java/com/parqueo/parkingApp/service/ReglasEstacionamientoServiceImpl.java:112-128 | Accepted exactly when the description trims to 5..255 characters and the kind is present |
| ReglaService.CrearSii | src/main/java/com/parqueo/parkingApp/service/ReglasEstacionamientoServiceImpl.java:54-59 | Stores a rule exactly when the dto is valid, under a fresh id; a refusal saves nothing |
| ReglaService.ActualizarSii | src/main/java/com/parqueo/parkingApp/service/ReglasEstacionamientoServiceImpl.java:62-77 | Replaces a stored rule exactly when the id is given and stored and the dto valid; a refusal saves nothing |
| ReglaService.EliminarSii | src/main/java/com/parqueo/parkingApp/service/ReglasEstacionamientoServiceImpl.java:80-90 | Removes exactly the named rule when stored, else saves nothing |
| ReglaService.BuscarPorTipo | src/main/java/com/parqueo/parkingApp/service/ReglasEstacionamientoServiceImpl.java:93-102 | Refused exactly for a query without text; otherwise only stored rules |
| ReglaService.BuscarActivas | src/main/java/com/parqueo/parkingApp/service/ReglasEstacionamientoServiceImpl.java:105-110 | Every rule |
| ReglaService.BuscarLeve | src/main/java/com/parqueo/parkingApp/service/ReglasEstacionamientoServiceImpl.java:93-102 | "leve" finds exactly the LEVE rules |
| ReglaService.BuscarE | src/main/java/com/parqueo/parkingApp/service/ReglasEstacionamientoServiceImpl.java:93-110 | "e" finds every rule |
| ReglaService.PrimeraCoincidencia | src/main/java/com/parqueo/parkingApp/service/ReglasEstacionamientoServiceImpl.java:132-136 | The first matching position, none exactly when nothing matches |
| ReglaService.ProcesarSii | src/main/java/com/parqueo/parkingApp/service/ReglasEstacionamientoServiceImpl.java:130-156 | Fails, saving nothing, exactly when no stored rule matches the type |
| ReglaService.ProcesarGuarda | src/main/java/com/parqueo/parkingApp/service/ReglasEstacionamientoServiceImpl.java:138-153 | Saves one ACTIVA sanction without punishment and one ACTIVO detail linked to the first matching rule |
| ReglaService.ProcesarIgnoraSuspension | src/main/java/com/parqueo/parkingApp/service/ReglasEstacionamientoServiceImpl.java:130-156 | A suspended user, refused by crearConRegistrador, is still sanctioned |
| ReglaService.ProcesarSinEscalado | src/main/java/com/parqueo/parkingApp/service/ReglasEstacionamientoServiceImpl.java:138-144 | No punishment whatever the count, user unchanged, yet the sanction counts |
| ReglaService.CrearEnBd | src/main/java/com/parqueo/parkingApp/service/ReglasEstacionamientoServiceImpl.java:54-59 | Returns crear's result and leaves its state |
| ReglaService.ActualizarEnBd | src/main/java/com/parqueo/parkingApp/service/ReglasEstacionamientoServiceImpl.java:62-77 | Returns actualizar's result and leaves its state |
| ReglaService.EliminarEnBd | src/main/java/com/parqueo/parkingApp/service/ReglasEstacionamientoServiceImpl.java:80-90 | Returns eliminar's result and leaves its state |
| ReglaService.ProcesarInfraccionEnBd | src/main/java/com/parqueo/parkingApp/service/ReglasEstacionamientoServiceImpl.java:130-156 | Returns procesarInfraccion's result and leaves its state |

## Left out

- Notifications and the usage history (`historialUsoService`,
  `notificacionService`): side effects outside the database tables
  modelled, including the history event `procesarInfraccion` records.
- `expirarReservasAutomaticamente` and `crearRecordatoriosAutomaticos`:
  the first repeats pass 1 of the sweep with notifications, the second
  only notifies.
- Transactions, scheduling and HTTP status mapping: each operation is one
  atomic step; the controllers' try/catch answers are modelled only as
  `Ok`/`Err`.
- Password encoding and the exact text of NullPointerException messages:
  hashing is external, and a null dereference is modelled as an error kind
  without its message.
- Clock reads, the user the security context gives (`registradaPor`),
  the administrator role lookup and `tieneHistorial`: passed in as
  parameters.
- The clock is an integer number of seconds; `plusMonths` is a fixed
  duration; `LocalDateTime.toString` is replaced by `TimeToString`, the
  decimal rendering of that integer, not ISO-8601 text.
- Case mapping: `Character.toUpperCase`/`toLowerCase` are modelled on
  ASCII, Latin-1 and the few characters that fold onto those (ÿ/Ÿ, µ,
  ı, İ, ſ, the Kelvin and Angstrom signs); other scripts' case pairs
  (Greek, Cyrillic, ...) are treated as caseless. `String.toLowerCase`
  (`ToLower`) folds only ASCII and Latin-1 capitals.
- ReservaExpiracion.Pasada1Caracterizada: the order of the database's
  listing is not modelled; the lemmas state the result for every order.
- CustomUserDetailsService.PrimeraSuspension: the repository's order is
  not modelled, so the suspension named is some suspension in effect.
- `forzarExpiracionReserva` with a null id: the id is a `nat`.
- EscaneoQrService.CrearEscaneoCaracterizado: the refusal of `save` for
  an entity without a reservation (EscaneoQR.java:25-27 in the parkingApp
  copy) is modelled as a `ConstraintViolation` error; the mapper's other
  non-null column (`tipo`) is not checked separately, since the missing
  reservation already refuses every save. A client-given dto id (copied
  by EscaneoQRMapper.java:34 in the parkingApp copy) is ignored.
- SancionDetalleService.Actualizar: the entity it builds has no links; the
  save is not modelled.
- The "Usuario no encontrado" lookups in `crearSancionCompleta` and
  `desbloquearSancion`: they cannot fail after the service accepted the
  user.
- `eliminarUsuarioCompleto` with a null id, and foreign-key failures on
  delete: the id is a `nat`, and the database enforces no constraint
  beyond `Valid`.
- Bean-validation annotations such as `@Size`: they belong to the
  schema, not the services.
- The JPA delete cascades of the entity mappings (a space's reservations,
  a user's or vehicle's reservations and sanctions, a reservation's QR, a
  sanction's details): a delete removes only the rows the service itself
  deletes.
- UsuarioService.EliminarCompletoConservaAdmin: keeps the QRs of the
  deleted reservations and the details of the deleted sanctions, which
  the cascades of Reserva.java:67 and parkingApp Sancion.java:61 delete.
- VehiculoService.EliminarQuitaUno: keeps the vehicle's reservations and
  sanctions, which the cascades of Vehiculo.java:66 and :70 delete.
- EspacioService.EliminarQuitaUno: keeps the space's reservations, which
  the cascade of EspacioDisponible.java:68 deletes.
- ReservaRepository.FindReservasConflictivas: the query returns a List
  that repeats a reservation once per conflicting partner; the model
  returns the set of ids.
- SancionService.CrearGuarda: a client-given dto id, which the mapper
  copies and JPA's save would merge into an existing sanction, is
  ignored; every create stores under a fresh id. The same holds for
  SancionService.CrearConRegistradorEnBd.
- UsuarioService.CrearSii: a client-given dto id (copied by the user
  mapper, merged by save) is ignored; the user gets a fresh id.
- SancionDetalleService.CrearVincula: a client-given dto id (copied by
  the detail mapper) is ignored; the detail gets a fresh id.
- ReglaService.CrearSii: a client-given dto id (copied by the rule
  mapper) is ignored; the rule gets a fresh id.
- ReservaService.CrearCaracterizado: a client-given dto id (copied by
  ReservaMapper.java:42, used at ReservaServiceImpl.java:106, and merged
  by save) is ignored; the reservation gets a fresh id.
- VehiculoService.CrearSii: a client-given dto id (copied by
  VehiculoMapper.java:34 in the parkingApp copy, used at
  VehiculoServiceImpl.java:54) is ignored; the vehicle gets a fresh id.
- EspacioService.CrearConDefectos: a client-given dto id (copied by
  EspacioMapper.java:33, used at EspacioDisponibleServiceImpl.java:40) is
  ignored; the space gets a fresh id.
- SancionesAutomaticas.AplicarReejecutar: proved for a rerun with the
  same clock readings; a later rerun may sanction a reservation whose
  user's suspension has ended meanwhile.
- Vehicle repository queries that `VehiculoServiceImpl` calls but the
  repository does not declare: modelled by their names' meaning.
- `findByPlaca` throwing on duplicates: plates are unique in `Valid`.
- EspacioService.ActualizarProtegeEstado: a null `capacidadMaxima` in an
  update, and the `activo == null` fallback, which cannot be reached.
- ReglaService.ValidarDatosRegla: the LEVE/GRAVE check cannot fail,
  because the enumeration has no other value.
- ReglaService.CrearSii: the description is stored untrimmed, as the
  source stores it; only its trimmed length is proved to lie within
  5..255, not the stored text's own length.
- The space argument of `procesarInfraccion`, which the method never
  reads.
- The read-only `obtenerTodos`/`obtenerPorId` lookups of each service:
  they are plain map reads.
