/** The reservation operations of ReservaServiceImpl that change state one
    call at a time: crear, actualizar and forzarExpiracionReserva, with the
    two validators they share. */
module ReservaService {
  import opened Common
  import opened Entities
  import ReservaRepository
  import opened ReservaExpiracion
  import Store

  /** The fields of ReservaDto the service reads; null is None. */
  datatype ReservaDto = ReservaDto(
    usuarioId: Option<nat>,
    vehiculoId: Option<nat>,
    espacioId: Option<nat>,
    inicio: Option<Time>,
    fin: Option<Time>,
    estado: Option<EstadoReserva>,
    motivoCancelacion: Option<string>)

  // ------------------------------------------------------------ validators

  /** validarDatosReserva: the three links and the state must be present. */
  function ValidarDatosReserva(dto: ReservaDto): (r: Option<Error>)
    ensures r.None? <==> dto.usuarioId.Some? && dto.vehiculoId.Some? && dto.espacioId.Some? && dto.estado.Some?
    ensures r.Some? ==> r.value.IllegalArgument?
  {
    if dto.usuarioId.None? then Some(IllegalArgument("El ID del usuario no puede estar vacío"))
    else if dto.vehiculoId.None? then Some(IllegalArgument("El ID del vehículo no puede estar vacío"))
    else if dto.espacioId.None? then Some(IllegalArgument("El ID del espacio no puede estar vacío"))
    else if dto.estado.None? then Some(IllegalArgument("El estado no puede estar vacío"))
    else None
  }

  /** validarFechasReserva: both bounds present and the start not after the end
      (isAfter is strict, so a reservation may start and end at one instant). */
  function ValidarFechasReserva(inicio: Option<Time>, fin: Option<Time>): (r: Option<Error>)
    ensures r.None? <==> inicio.Some? && fin.Some? && inicio.value <= fin.value
    ensures r.Some? ==> r.value.IllegalArgument?
  {
    if inicio.None? then Some(IllegalArgument("La fecha de inicio no puede estar vacía"))
    else if fin.None? then Some(IllegalArgument("La fecha de fin no puede estar vacía"))
    else if inicio.value > fin.value then Some(IllegalArgument("La fecha de inicio no puede ser posterior a la fecha de fin"))
    else None
  }

  /** The checks both crear and actualizar run after their own guards: the two
      validators, then the user, vehicle and space lookups. */
  function ErrorDeDatos(s: State, dto: ReservaDto): (r: Option<Error>)
    ensures r.None? <==>
      && ValidarDatosReserva(dto).None? && ValidarFechasReserva(dto.inicio, dto.fin).None?
      && dto.usuarioId.value in s.usuarios && dto.vehiculoId.value in s.vehiculos && dto.espacioId.value in s.espacios
  {
    if ValidarDatosReserva(dto).Some? then ValidarDatosReserva(dto)
    else if ValidarFechasReserva(dto.inicio, dto.fin).Some? then ValidarFechasReserva(dto.inicio, dto.fin)
    else if dto.usuarioId.value !in s.usuarios then Some(EntityNotFound("Usuario no encontrado"))
    else if dto.vehiculoId.value !in s.vehiculos then Some(EntityNotFound("Vehículo no encontrado"))
    else if dto.espacioId.value !in s.espacios then Some(EntityNotFound("Espacio no encontrado"))
    else None
  }

  // ------------------------------------------------------------------ crear

  /** The QR crear mints for reservation `reservaId`: an ENTRADA QR valid from
      30 minutes before the start to 30 minutes after it. */
  function QrDeEntrada(reservaId: nat, token: string, inicio: Time): EscaneoQr
  {
    EscaneoQr(Some(reservaId), None, None, token, "ENTRADA", Some(inicio + TREINTA_MINUTOS), Some(inicio - TREINTA_MINUTOS))
  }

  /** The database after crear: the space RESERVADO, the reservation stored as
      RESERVADO whatever the dto says, with the creation instant, and its QR. */
  function ConReservaCreada(s: State, dto: ReservaDto, now: Time, token: string): State
    requires ErrorDeDatos(s, dto).None?
  {
    var id := s.nextId;
    var e := dto.espacioId.value;
    s.(espacios := s.espacios[e := s.espacios[e].(estado := EstadoEspacio.RESERVADO)],
       reservas := s.reservas[id := Reserva(dto.usuarioId.value, dto.vehiculoId.value, e, dto.inicio.value, dto.fin.value,
                                            EstadoReserva.RESERVADO, now, dto.motivoCancelacion)],
       qrs := s.qrs[id + 1 := QrDeEntrada(id, token, dto.inicio.value)],
       nextId := id + 2)
  }

  /** crear. `token` stands for the random UUID; returns the new reservation's id. */
  function Crear(s: State, dto: ReservaDto, now: Time, token: string): Step<nat>
  {
    match ErrorDeDatos(s, dto)
    case Some(e) => Step(s, Err(e))
    case None => Step(ConReservaCreada(s, dto, now, token), Ok(s.nextId))
  }

  /** crear fails exactly when a validator or a lookup fails, and then changes
      nothing. On success the reservation is RESERVADO (the dto's state is
      ignored) with the dto's links and times and the creation instant, its
      space is RESERVADO, and it has exactly one QR: an unused ENTRADA QR with
      the fresh token, valid from 30 minutes before the start to 30 minutes
      after it. No other reservation, and no sanction or user, changes. */
  lemma CrearCaracterizado(s: State, dto: ReservaDto, now: Time, token: string)
    requires Valid(s)
    ensures Crear(s, dto, now, token).result.Ok? <==> ErrorDeDatos(s, dto).None?
    ensures Crear(s, dto, now, token).result.Err? ==> Crear(s, dto, now, token).state == s
    ensures Crear(s, dto, now, token).result.Ok? ==>
      var id := s.nextId;
      var t := Crear(s, dto, now, token).state;
      && Crear(s, dto, now, token).result.value == id && id !in s.reservas
      && id in t.reservas && dto.espacioId.value in t.espacios && id + 1 in t.qrs
      && t.reservas[id] == Reserva(dto.usuarioId.value, dto.vehiculoId.value, dto.espacioId.value,
                                   dto.inicio.value, dto.fin.value, EstadoReserva.RESERVADO, now, dto.motivoCancelacion)
      && t.espacios[dto.espacioId.value].estado == EstadoEspacio.RESERVADO
      && QrsDeReserva(t.qrs, id) == {id + 1}
      && t.qrs[id + 1].tipo == "ENTRADA" && t.qrs[id + 1].token == token
      && t.qrs[id + 1].timestampEnt.None? && t.qrs[id + 1].timestampSal.None?
      && t.qrs[id + 1].fechaInicioValidez == Some(dto.inicio.value - 30 * MINUTE)
      && t.qrs[id + 1].fechaExpiracion == Some(dto.inicio.value + 30 * MINUTE)
      && (forall r :: r in s.reservas ==> r in t.reservas && t.reservas[r] == s.reservas[r])
      && t.sanciones == s.sanciones && t.usuarios == s.usuarios && t.vehiculos == s.vehiculos
  {
    if ErrorDeDatos(s, dto).None? {
      var id := s.nextId;
      var t := ConReservaCreada(s, dto, now, token);
      forall q | q in s.qrs
        ensures s.qrs[q].reserva != Some(id)
      {
      }
      assert QrsDeReserva(t.qrs, id) == {id + 1};
    }
  }

  /** crear keeps the database well formed when the token is fresh. */
  lemma CrearPreservaValido(s: State, dto: ReservaDto, now: Time, token: string)
    requires Valid(s) && token !in Tokens(s.qrs)
    ensures Valid(Crear(s, dto, now, token).state)
  {
    if ErrorDeDatos(s, dto).None? {
      var id := s.nextId;
      var t := ConReservaCreada(s, dto, now, token);
      forall q | q in s.qrs
        ensures t.qrs[q].token != token
      {
        assert s.qrs[q].token in Tokens(s.qrs);
      }
    }
  }

  /** crear runs no overlap check: a reservation of a space that is already
      RESERVADO or ACTIVO over an overlapping interval is stored all the same,
      and both then show up in the conflict query. */
  lemma CrearAdmiteSolape(s: State, dto: ReservaDto, now: Time, token: string, otra: nat)
    requires Valid(s)
    requires ErrorDeDatos(s, dto).None?
    requires otra in s.reservas && s.reservas[otra].espacioId == dto.espacioId.value
    requires ReservaRepository.Vigente(s.reservas[otra].estado)
    requires s.reservas[otra].inicio <= s.reservas[otra].fin
    requires dto.inicio.value <= s.reservas[otra].fin && s.reservas[otra].inicio <= dto.fin.value
    ensures Crear(s, dto, now, token).result == Ok(s.nextId)
    ensures var t := Crear(s, dto, now, token).state;
      && s.nextId in ReservaRepository.FindReservasConflictivas(t.reservas, t.espacios.Keys)
      && otra in ReservaRepository.FindReservasConflictivas(t.reservas, t.espacios.Keys)
  {
    var id := s.nextId;
    var t := Crear(s, dto, now, token).state;
    assert otra != id;
    ReservaRepository.SolapeEsInterseccion(t.reservas[id], t.reservas[otra]);
    ReservaRepository.SolapeEsInterseccion(t.reservas[otra], t.reservas[id]);
    assert ReservaRepository.EnConflicto(t.espacios.Keys, id, t.reservas[id], otra, t.reservas[otra]);
    assert ReservaRepository.EnConflicto(t.espacios.Keys, otra, t.reservas[otra], id, t.reservas[id]);
  }

  /** The saves of crear once the checks have passed. */
  method GuardarReservaCreada(db: Store.Db, dto: ReservaDto, now: Time, token: string) returns (id: nat)
    requires ErrorDeDatos(db.Snapshot(), dto).None?
    modifies db`espacios, db`reservas, db`qrs, db`nextId
    ensures id == old(db.nextId)
    ensures db.Snapshot() == ConReservaCreada(old(db.Snapshot()), dto, now, token)
  {
    var e := dto.espacioId.value;
    db.espacios := db.espacios[e := db.espacios[e].(estado := EstadoEspacio.RESERVADO)];
    id := db.NuevoId();
    db.reservas := db.reservas[id := Reserva(dto.usuarioId.value, dto.vehiculoId.value, e, dto.inicio.value, dto.fin.value,
                                             EstadoReserva.RESERVADO, now, dto.motivoCancelacion)];
    var qr := db.NuevoId();
    db.qrs := db.qrs[qr := QrDeEntrada(id, token, dto.inicio.value)];
  }

  /** crear on the database. */
  method CrearEnBd(db: Store.Db, dto: ReservaDto, now: Time, token: string) returns (r: Result<nat>)
    modifies db
    ensures r == Crear(old(db.Snapshot()), dto, now, token).result
    ensures db.Snapshot() == Crear(old(db.Snapshot()), dto, now, token).state
  {
    var error := ErrorDeDatos(db.Snapshot(), dto);
    if error.Some? {
      return Err(error.value);
    }
    var id := GuardarReservaCreada(db, dto, now, token);
    r := Ok(id);
  }

  // ------------------------------------------------------------- actualizar

  /** The states a reservation cannot leave through actualizar. */
  predicate Terminal(e: EstadoReserva)
  {
    e == EstadoReserva.FINALIZADO || e == EstadoReserva.CANCELADO || e == EstadoReserva.EXPIRADO
  }

  /** The space status that mirrors a reservation status. */
  function EspacioSegun(e: EstadoReserva): EstadoEspacio
  {
    match e
    case RESERVADO => EstadoEspacio.RESERVADO
    case ACTIVO => EstadoEspacio.OCUPADO
    case FINALIZADO => EstadoEspacio.DISPONIBLE
    case CANCELADO => EstadoEspacio.DISPONIBLE
    case EXPIRADO => EstadoEspacio.DISPONIBLE
  }

  const MSG_ESTADO_FINAL: string := "No se puede cambiar el estado de una reserva FINALIZADO, CANCELADO o EXPIRADO"

  function ErrorAlActualizar(s: State, id: Option<nat>, dto: ReservaDto): (r: Option<Error>)
    ensures r.None? ==> id.Some? && id.value in s.reservas && ErrorDeDatos(s, dto).None?
  {
    if id.None? then Some(IllegalArgument("El ID no puede ser null"))
    else if id.value !in s.reservas then Some(EntityNotFound("Reserva no encontrada con ID: " + NatToString(id.value)))
    else if Terminal(s.reservas[id.value].estado) && dto.estado != Some(s.reservas[id.value].estado) then
      Some(IllegalState(MSG_ESTADO_FINAL))
    else ErrorDeDatos(s, dto)
  }

  /** The database after actualizar: the dto's space mirrors the dto's state and
      the reservation is rebuilt from the dto, keeping its creation instant. */
  function ConReservaActualizada(s: State, id: nat, dto: ReservaDto): State
    requires id in s.reservas && ErrorDeDatos(s, dto).None?
  {
    var e := dto.espacioId.value;
    s.(espacios := s.espacios[e := s.espacios[e].(estado := EspacioSegun(dto.estado.value))],
       reservas := s.reservas[id := Reserva(dto.usuarioId.value, dto.vehiculoId.value, e, dto.inicio.value, dto.fin.value,
                                            dto.estado.value, s.reservas[id].fechaCreacion, dto.motivoCancelacion)])
  }

  /** actualizar; returns the reservation's id. */
  function Actualizar(s: State, id: Option<nat>, dto: ReservaDto): Step<nat>
  {
    match ErrorAlActualizar(s, id, dto)
    case Some(e) => Step(s, Err(e))
    case None => Step(ConReservaActualizada(s, id.value, dto), Ok(id.value))
  }

  /** A FINALIZADO, CANCELADO or EXPIRADO reservation keeps its state: a dto
      asking for any other state (null included) is refused with
      IllegalStateException before anything else is checked, and a successful
      update leaves the state as it was. */
  lemma ActualizarEstadoFinal(s: State, id: nat, dto: ReservaDto)
    requires id in s.reservas && Terminal(s.reservas[id].estado)
    ensures dto.estado != Some(s.reservas[id].estado) ==>
      Actualizar(s, Some(id), dto) == Step(s, Err(IllegalState(MSG_ESTADO_FINAL)))
    ensures Actualizar(s, Some(id), dto).result.Ok? ==>
      Actualizar(s, Some(id), dto).state.reservas[id].estado == s.reservas[id].estado
  {
  }

  /** actualizar fails with the first guard that fails and then changes
      nothing. On success the reservation holds the dto's links, times, state
      and cancellation reason and its original creation instant, the dto's
      space mirrors the new state (RESERVADO, OCUPADO, or DISPONIBLE for the
      three final states), and no other reservation and no QR changes. */
  lemma ActualizarCaracterizado(s: State, id: Option<nat>, dto: ReservaDto)
    ensures id.None? ==> Actualizar(s, id, dto) == Step(s, Err(IllegalArgument("El ID no puede ser null")))
    ensures id.Some? && id.value !in s.reservas ==>
      Actualizar(s, id, dto) == Step(s, Err(EntityNotFound("Reserva no encontrada con ID: " + NatToString(id.value))))
    ensures Actualizar(s, id, dto).result.Err? ==> Actualizar(s, id, dto).state == s
    ensures Actualizar(s, id, dto).result.Ok? ==>
      var t := Actualizar(s, id, dto).state;
      var k := id.value;
      && Actualizar(s, id, dto).result.value == k
      && k in s.reservas && k in t.reservas && dto.espacioId.value in t.espacios
      && t.reservas[k].estado == dto.estado.value
      && t.reservas[k].usuarioId == dto.usuarioId.value && t.reservas[k].vehiculoId == dto.vehiculoId.value
      && t.reservas[k].espacioId == dto.espacioId.value
      && t.reservas[k].inicio == dto.inicio.value <= t.reservas[k].fin == dto.fin.value
      && t.reservas[k].fechaCreacion == s.reservas[k].fechaCreacion
      && t.espacios[dto.espacioId.value].estado == EspacioSegun(dto.estado.value)
      && (dto.estado.value == EstadoReserva.ACTIVO <==> t.espacios[dto.espacioId.value].estado == EstadoEspacio.OCUPADO)
      && (Terminal(dto.estado.value) <==> t.espacios[dto.espacioId.value].estado == EstadoEspacio.DISPONIBLE)
      && (forall r :: r in s.reservas && r != k ==> r in t.reservas && t.reservas[r] == s.reservas[r])
      && t.reservas.Keys == s.reservas.Keys && t.qrs == s.qrs
  {
  }

  /** Moving a reservation to another space leaves the space it held as it was:
      a space RESERVADO or OCUPADO for it stays so. */
  lemma ActualizarNoSueltaEspacioAnterior(s: State, id: nat, dto: ReservaDto)
    requires Actualizar(s, Some(id), dto).result.Ok?
    requires s.reservas[id].espacioId != dto.espacioId.value && s.reservas[id].espacioId in s.espacios
    ensures var e := s.reservas[id].espacioId;
      e in Actualizar(s, Some(id), dto).state.espacios && Actualizar(s, Some(id), dto).state.espacios[e] == s.espacios[e]
  {
  }

  /** The saves of actualizar once the checks have passed: the space, then the
      reservation. */
  method GuardarReservaActualizada(db: Store.Db, id: nat, dto: ReservaDto)
    requires id in db.reservas && ErrorDeDatos(db.Snapshot(), dto).None?
    modifies db`espacios, db`reservas
    ensures db.Snapshot() == ConReservaActualizada(old(db.Snapshot()), id, dto)
  {
    var original := db.reservas[id];
    var e := dto.espacioId.value;
    var estado := dto.estado.value;
    if estado == EstadoReserva.RESERVADO {
      db.espacios := db.espacios[e := db.espacios[e].(estado := EstadoEspacio.RESERVADO)];
    } else if estado == EstadoReserva.ACTIVO {
      db.espacios := db.espacios[e := db.espacios[e].(estado := EstadoEspacio.OCUPADO)];
    } else {
      db.espacios := db.espacios[e := db.espacios[e].(estado := EstadoEspacio.DISPONIBLE)];
    }
    db.reservas := db.reservas[id := Reserva(dto.usuarioId.value, dto.vehiculoId.value, e, dto.inicio.value, dto.fin.value,
                                             estado, original.fechaCreacion, dto.motivoCancelacion)];
  }

  /** actualizar on the database. */
  method ActualizarEnBd(db: Store.Db, id: Option<nat>, dto: ReservaDto) returns (r: Result<nat>)
    modifies db
    ensures r == Actualizar(old(db.Snapshot()), id, dto).result
    ensures db.Snapshot() == Actualizar(old(db.Snapshot()), id, dto).state
  {
    var error := ErrorAlActualizar(db.Snapshot(), id, dto);
    if error.Some? {
      return Err(error.value);
    }
    GuardarReservaActualizada(db, id.value, dto);
    r := Ok(id.value);
  }

  // ------------------------------------------------ forzarExpiracionReserva

  /** The name of a reservation state, as string concatenation prints it. */
  function NombreEstado(e: EstadoReserva): string
  {
    match e
    case RESERVADO => "RESERVADO"
    case ACTIVO => "ACTIVO"
    case FINALIZADO => "FINALIZADO"
    case CANCELADO => "CANCELADO"
    case EXPIRADO => "EXPIRADO"
  }

  /** forzarExpiracionReserva. Only a RESERVADO reservation may be forced; its
      space is freed when it has one and it is saved as EXPIRADO. The
      notification then reads the space's number, so a reservation without a
      space throws NullPointerException after both saves (the method is not
      transactional, so they stay). */
  function ForzarExpiracion(s: State, id: nat): Step<()>
  {
    if id !in s.reservas then Step(s, Err(EntityNotFound("Reserva no encontrada con ID: " + NatToString(id))))
    else if s.reservas[id].estado != EstadoReserva.RESERVADO then
      Step(s, Err(IllegalState("La reserva no está en estado RESERVADO. Estado actual: " + NombreEstado(s.reservas[id].estado))))
    else if s.reservas[id].espacioId in s.espacios then Step(Liberada(s, id), Ok(()))
    else Step(Liberada(s, id), Err(NullPointer))
  }

  /** Forcing a reservation that is missing or not RESERVADO throws and
      changes nothing. */
  lemma ForzarRechaza(s: State, id: nat)
    requires id !in s.reservas || s.reservas[id].estado != EstadoReserva.RESERVADO
    ensures ForzarExpiracion(s, id).state == s && ForzarExpiracion(s, id).result.Err?
    ensures id in s.reservas ==> ForzarExpiracion(s, id).result.error.IllegalState?
    ensures id !in s.reservas ==> ForzarExpiracion(s, id).result.error.EntityNotFound?
  {
  }

  /** Forcing a RESERVADO reservation makes it EXPIRADO and its space, when it
      has one, DISPONIBLE; nothing else changes. It reports success exactly
      when the space exists. */
  lemma ForzarLibera(s: State, id: nat)
    requires id in s.reservas && s.reservas[id].estado == EstadoReserva.RESERVADO
    ensures var t := ForzarExpiracion(s, id).state;
      var e := s.reservas[id].espacioId;
      && t.reservas == s.reservas[id := s.reservas[id].(estado := EstadoReserva.EXPIRADO)]
      && (e in s.espacios ==> t.espacios == s.espacios[e := s.espacios[e].(estado := EstadoEspacio.DISPONIBLE)])
      && (e !in s.espacios ==> t.espacios == s.espacios)
      && (ForzarExpiracion(s, id).result.Ok? <==> e in s.espacios)
      && t.qrs == s.qrs && t.sanciones == s.sanciones && t.usuarios == s.usuarios && t.vehiculos == s.vehiculos
  {
    assert ForzarExpiracion(s, id).state == Liberada(s, id);
  }

  /** Forcing the same reservation twice: the second call is refused with
      IllegalStateException naming the state EXPIRADO, and changes nothing. */
  lemma ForzarDosVeces(s: State, id: nat)
    requires id in s.reservas && s.reservas[id].estado == EstadoReserva.RESERVADO
    ensures var t := ForzarExpiracion(s, id).state;
      && ForzarExpiracion(t, id).state == t
      && ForzarExpiracion(t, id).result == Err(IllegalState("La reserva no está en estado RESERVADO. Estado actual: EXPIRADO"))
  {
    var t := Liberada(s, id);
    assert t.reservas[id].estado == EstadoReserva.EXPIRADO;
    assert "La reserva no está en estado RESERVADO. Estado actual: " + NombreEstado(EstadoReserva.EXPIRADO)
      == "La reserva no está en estado RESERVADO. Estado actual: EXPIRADO";
  }

  /** forzarExpiracionReserva on the database. */
  method ForzarExpiracionEnBd(db: Store.Db, id: nat) returns (r: Result<()>)
    modifies db`reservas, db`espacios
    ensures r == ForzarExpiracion(old(db.Snapshot()), id).result
    ensures db.Snapshot() == ForzarExpiracion(old(db.Snapshot()), id).state
  {
    if id !in db.reservas {
      return Err(EntityNotFound("Reserva no encontrada con ID: " + NatToString(id)));
    }
    var estado := db.reservas[id].estado;
    if estado != EstadoReserva.RESERVADO {
      return Err(IllegalState("La reserva no está en estado RESERVADO. Estado actual: " + NombreEstado(estado)));
    }
    var e := db.reservas[id].espacioId;
    var conEspacio := e in db.espacios;
    LiberarEnBd(db, id);
    r := if conEspacio then Ok(()) else Err(NullPointer);
  }
}
