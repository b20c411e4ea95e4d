/** SancionServiceImpl: the effective-suspension predicate, the count of
    repeated offences ("reincidencias"), the punishment table, the user/vehicle
    activation that follows every change, and the create and update operations. */
module SancionService {
  import opened Common
  import opened Entities
  import Store

  /** The request body of a sanction (SancionDto); every field may be null. */
  datatype SancionDto = SancionDto(
    usuarioId: Option<nat>,
    vehiculoId: Option<nat>,
    motivo: Option<string>,
    estado: Option<EstadoSancion>,
    registroSancion: Option<Time>,
    observaciones: Option<string>,
    fechaResolucion: Option<Time>,
    reglaId: Option<nat>,
    tipoCastigo: Option<string>,
    fechaInicioSuspension: Option<Time>,
    fechaFinSuspension: Option<Time>)

  const LLAMADA_DE_ATENCION: string := "Llamada de atención"
  const SUSPENSION_SEMANA: string := "Suspensión temporal 1 semana"
  const SUSPENSION_MES: string := "Suspensión 1 mes"
  /** The initial value of the punishment, which no tipoFalta leaves in place. */
  const AMONESTACION: string := "Amonestación"

  const MSG_YA_SUSPENDIDO: string :=
    "El usuario ya está suspendido. No se puede crear una nueva sanción hasta que termine la suspensión actual."

  // ------------------------------------------------------------ suspension

  /** A punishment counts as a suspension when its lower-cased name mentions "suspensión". */
  predicate EsSuspension(tipoCastigo: Option<string>)
  {
    tipoCastigo.Some? && Contains(ToLower(tipoCastigo.value), "suspensión")
  }

  /** A suspension in effect at `now`: ACTIVA, both dates present and
      start < now < end (isAfter / isBefore, both strict). */
  predicate SuspensionEfectiva(s: Sancion, now: Time)
  {
    && s.estado == ACTIVA
    && EsSuspension(s.tipoCastigo)
    && s.fechaInicioSuspension.Some? && s.fechaFinSuspension.Some?
    && s.fechaInicioSuspension.value < now < s.fechaFinSuspension.value
  }

  /** Some sanction of the user is a suspension in effect at `now`. */
  predicate Suspendido(sanciones: map<nat, Sancion>, usuarioId: nat, now: Time)
  {
    exists k :: k in sanciones && sanciones[k].usuarioId == usuarioId && SuspensionEfectiva(sanciones[k], now)
  }

  /** The two suspension names of the table are suspensions; the warning is not. */
  lemma NombresDeCastigo()
    ensures EsSuspension(Some(SUSPENSION_SEMANA)) && EsSuspension(Some(SUSPENSION_MES))
    ensures !EsSuspension(Some(LLAMADA_DE_ATENCION))
  {
    var w := ToLower(SUSPENSION_SEMANA);
    assert w[0] == 's' && w[1] == 'u' && w[2] == 's' && w[3] == 'p' && w[4] == 'e';
    assert w[5] == 'n' && w[6] == 's' && w[7] == 'i' && w[8] == 'ó' && w[9] == 'n';
    assert OccursAt(w, "suspensión", 0);
    var m := ToLower(SUSPENSION_MES);
    assert m[0] == 's' && m[1] == 'u' && m[2] == 's' && m[3] == 'p' && m[4] == 'e';
    assert m[5] == 'n' && m[6] == 's' && m[7] == 'i' && m[8] == 'ó' && m[9] == 'n';
    assert OccursAt(m, "suspensión", 0);
    var l := ToLower(LLAMADA_DE_ATENCION);
    forall i | 0 <= i < |l| ensures l[i] != 's' { }
    NotContainsFirst(l, "suspensión");
  }

  // ---------------------------------------------------------- reincidencias

  /** Some detail of sanction `sid` points at a rule of fault kind `tipo`. */
  predicate TieneDetalleDeTipo(s: State, sid: nat, tipo: TipoFalta)
  {
    exists d :: d in s.detalles && s.detalles[d].sancionId == sid
      && s.detalles[d].reglaId in s.reglas && s.reglas[s.detalles[d].reglaId].tipoFalta == tipo
  }

  /** The user's sanctions that count as a previous offence of kind `tipo`:
      ACTIVA or RESUELTA, with a detail of that kind. */
  function SancionesReincidentes(s: State, usuarioId: nat, tipo: TipoFalta): set<nat>
  {
    set sid | sid in s.sanciones && s.sanciones[sid].usuarioId == usuarioId
      && (s.sanciones[sid].estado == ACTIVA || s.sanciones[sid].estado == RESUELTA)
      && TieneDetalleDeTipo(s, sid, tipo)
  }

  function Reincidencias(s: State, usuarioId: nat, tipo: TipoFalta): nat
  {
    |SancionesReincidentes(s, usuarioId, tipo)|
  }

  /** What counts: exactly the user's ACTIVA or RESUELTA sanctions that have a
      detail of the same fault kind; ANULADA ones and detail-less ones never do. */
  lemma CuentaReincidencia(s: State, usuarioId: nat, tipo: TipoFalta, sid: nat)
    ensures sid in SancionesReincidentes(s, usuarioId, tipo) <==>
      sid in s.sanciones && s.sanciones[sid].usuarioId == usuarioId
      && s.sanciones[sid].estado != ANULADA && TieneDetalleDeTipo(s, sid, tipo)
    ensures (forall d :: d in s.detalles ==> s.detalles[d].sancionId != sid) ==>
      sid !in SancionesReincidentes(s, usuarioId, tipo)
  {
  }

  /** Adding a sanction without details leaves every count unchanged. */
  lemma ReincidenciasSinDetalle(s: State, id: nat, nueva: Sancion, usuarioId: nat, tipo: TipoFalta)
    requires forall d :: d in s.detalles ==> s.detalles[d].sancionId != id
    ensures Reincidencias(s.(sanciones := s.sanciones[id := nueva]), usuarioId, tipo) ==
      Reincidencias(s, usuarioId, tipo) - (if id in SancionesReincidentes(s, usuarioId, tipo) then 1 else 0)
  {
    var s1 := s.(sanciones := s.sanciones[id := nueva]);
    assert SancionesReincidentes(s1, usuarioId, tipo) == SancionesReincidentes(s, usuarioId, tipo) - {id};
  }

  // ------------------------------------------------------- punishment table

  datatype Castigo = Castigo(tipo: string, inicio: Option<Time>, fin: Option<Time>)

  /** The punishment for a new offence of kind `tipo` after `reincidencias`
      previous ones, decided at `now`; `mes` is the length of plusMonths(1). */
  function CastigoPara(tipo: TipoFalta, reincidencias: nat, now: Time, mes: Duration): Castigo
  {
    match tipo
    case LEVE =>
      if reincidencias == 0 || reincidencias == 1 then Castigo(LLAMADA_DE_ATENCION, None, None)
      else if reincidencias == 2 then Castigo(SUSPENSION_SEMANA, Some(now), Some(now + WEEK))
      else Castigo(SUSPENSION_MES, Some(now), Some(now + mes))
    case GRAVE =>
      if reincidencias == 0 then Castigo(LLAMADA_DE_ATENCION, None, None)
      else if reincidencias == 1 then Castigo(SUSPENSION_SEMANA, Some(now), Some(now + WEEK))
      else Castigo(SUSPENSION_MES, Some(now), Some(now + mes))
  }

  /** Severity order of the punishments: warning < one week < one month. */
  function Gravedad(tipoCastigo: string): nat
  {
    if tipoCastigo == SUSPENSION_MES then 2 else if tipoCastigo == SUSPENSION_SEMANA then 1 else 0
  }

  /** The LEVE column: 0 or 1 previous offences give a warning, 2 a week, 3 or more a month. */
  lemma TablaLeve(r: nat, now: Time, mes: Duration)
    ensures var c := CastigoPara(LEVE, r, now, mes);
      && (r <= 1 ==> c == Castigo(LLAMADA_DE_ATENCION, None, None))
      && (r == 2 ==> c == Castigo(SUSPENSION_SEMANA, Some(now), Some(now + 7 * DAY)))
      && (r >= 3 ==> c == Castigo(SUSPENSION_MES, Some(now), Some(now + mes)))
  {
  }

  /** The GRAVE column: 0 gives a warning, 1 a week, 2 or more a month. */
  lemma TablaGrave(r: nat, now: Time, mes: Duration)
    ensures var c := CastigoPara(GRAVE, r, now, mes);
      && (r == 0 ==> c == Castigo(LLAMADA_DE_ATENCION, None, None))
      && (r == 1 ==> c == Castigo(SUSPENSION_SEMANA, Some(now), Some(now + 7 * DAY)))
      && (r >= 2 ==> c == Castigo(SUSPENSION_MES, Some(now), Some(now + mes)))
  {
  }

  /** Severity never decreases as the count grows, and a GRAVE offence is
      punished at least as hard as a LEVE one with the same count. */
  lemma GravedadMonotona(tipo: TipoFalta, r1: nat, r2: nat, now: Time, mes: Duration)
    requires r1 <= r2
    ensures Gravedad(CastigoPara(tipo, r1, now, mes).tipo) <= Gravedad(CastigoPara(tipo, r2, now, mes).tipo)
    ensures Gravedad(CastigoPara(LEVE, r1, now, mes).tipo) <= Gravedad(CastigoPara(GRAVE, r1, now, mes).tipo)
  {
  }

  /** The window exists exactly for the suspensions; it starts at `now` and
      ends strictly later. The start-less default "Amonestación" never comes out. */
  lemma VentanaSiiSuspension(tipo: TipoFalta, r: nat, now: Time, mes: Duration)
    ensures var c := CastigoPara(tipo, r, now, mes);
      && (c.inicio.Some? <==> EsSuspension(Some(c.tipo)))
      && (c.fin.Some? <==> EsSuspension(Some(c.tipo)))
      && (c.inicio.Some? ==> c.inicio.value == now && now < c.fin.value)
      && c.tipo != AMONESTACION
  {
    NombresDeCastigo();
  }

  /** A suspension decided at `now` is not yet in effect at that same instant,
      but it is at every later instant before its end. */
  lemma SuspensionNoEfectivaAlCrearla(s: Sancion, now: Time, later: Time)
    requires s.fechaInicioSuspension == Some(now)
    ensures !SuspensionEfectiva(s, now)
    ensures (s.estado == ACTIVA && EsSuspension(s.tipoCastigo) && s.fechaFinSuspension.Some?
      && now < later < s.fechaFinSuspension.value) ==> SuspensionEfectiva(s, later)
  {
  }

  // ------------------------------------------------------------ validation

  /** validarDatosSancion: the first failed check, or None. */
  function ValidarDatosSancion(dto: SancionDto): (r: Option<Error>)
    ensures r.None? <==>
      && dto.usuarioId.Some? && dto.vehiculoId.Some?
      && dto.motivo.Some? && 10 <= |Trim(dto.motivo.value)| <= 500
      && dto.estado.Some? && dto.registroSancion.Some? && dto.reglaId.Some?
      && (dto.observaciones.Some? ==> |dto.observaciones.value| <= 1000)
    ensures r.Some? ==> r.value.IllegalArgument?
  {
    if dto.usuarioId.None? then Some(IllegalArgument("El ID del usuario no puede estar vacío"))
    else if dto.vehiculoId.None? then Some(IllegalArgument("El ID del vehículo no puede estar vacío"))
    else if dto.motivo.None? || |Trim(dto.motivo.value)| == 0 then Some(IllegalArgument("El motivo no puede estar vacío"))
    else if |Trim(dto.motivo.value)| < 10 then Some(IllegalArgument("El motivo debe tener al menos 10 caracteres"))
    else if |Trim(dto.motivo.value)| > 500 then Some(IllegalArgument("El motivo no puede tener más de 500 caracteres"))
    else if dto.estado.None? then Some(IllegalArgument("El estado no puede estar vacío"))
    else if dto.registroSancion.None? then Some(IllegalArgument("La fecha de registro no puede estar vacía"))
    else if dto.reglaId.None? then Some(IllegalArgument("La regla infringida no puede estar vacía"))
    else if dto.observaciones.Some? && |dto.observaciones.value| > 1000 then
      Some(IllegalArgument("Las observaciones no pueden tener más de 1000 caracteres"))
    else None
  }

  // ------------------------------------------------ user and vehicle status

  /** actualizarEstadoUsuarioPorSanciones: the user, and every vehicle of the
      user, become active exactly when no suspension of the user is in effect. */
  function ActualizarEstadoUsuario(s: State, usuarioId: nat, now: Time): State
  {
    var activo := !Suspendido(s.sanciones, usuarioId, now);
    s.(usuarios := if usuarioId in s.usuarios then s.usuarios[usuarioId := s.usuarios[usuarioId].(activo := activo)] else s.usuarios,
       vehiculos := FijarActivo(s.vehiculos, usuarioId, activo))
  }

  /** Every vehicle of the user gets the flag `activo`. */
  function FijarActivo(vehiculos: map<nat, Vehiculo>, usuarioId: nat, activo: bool): map<nat, Vehiculo>
  {
    map v | v in vehiculos :: if vehiculos[v].usuarioId == usuarioId then vehiculos[v].(activo := activo) else vehiculos[v]
  }

  /** After the update the user's flag is "not suspended", every vehicle of the
      user carries the same flag, and nothing else changes. */
  lemma EstadoUsuarioCorrecto(s: State, usuarioId: nat, now: Time)
    ensures var t := ActualizarEstadoUsuario(s, usuarioId, now);
      && t.usuarios.Keys == s.usuarios.Keys && t.vehiculos.Keys == s.vehiculos.Keys
      && (usuarioId in t.usuarios ==> t.usuarios[usuarioId].activo == !Suspendido(s.sanciones, usuarioId, now))
      && (forall v :: v in t.vehiculos && t.vehiculos[v].usuarioId == usuarioId ==>
            t.vehiculos[v].activo == !Suspendido(s.sanciones, usuarioId, now))
      && (forall v :: v in t.vehiculos && s.vehiculos[v].usuarioId != usuarioId ==> t.vehiculos[v] == s.vehiculos[v])
      && (forall u :: u in t.usuarios && u != usuarioId ==> t.usuarios[u] == s.usuarios[u])
      && t.sanciones == s.sanciones && t.reservas == s.reservas && t.qrs == s.qrs && t.detalles == s.detalles
  {
  }

  /** Running the update twice is the same as running it once. */
  lemma EstadoUsuarioIdempotente(s: State, usuarioId: nat, now: Time)
    ensures ActualizarEstadoUsuario(ActualizarEstadoUsuario(s, usuarioId, now), usuarioId, now)
      == ActualizarEstadoUsuario(s, usuarioId, now)
  {
    var t := ActualizarEstadoUsuario(s, usuarioId, now);
    var u := ActualizarEstadoUsuario(t, usuarioId, now);
    assert u.vehiculos == t.vehiculos;
  }

  /** actualizarEstadoUsuarioPorSanciones: the user's flag, then one save per
      vehicle of the user. */
  method ActualizarEstadoUsuarioPorSanciones(db: Store.Db, usuarioId: nat, now: Time)
    modifies db`usuarios, db`vehiculos
    ensures db.Snapshot() == ActualizarEstadoUsuario(old(db.Snapshot()), usuarioId, now)
  {
    var activo := !Suspendido(db.sanciones, usuarioId, now);
    if usuarioId in db.usuarios {
      var usuario := db.usuarios[usuarioId];
      db.usuarios := db.usuarios[usuarioId := usuario.(activo := activo)];
    }
    FijarActivoEnBd(db, usuarioId, activo);
  }

  /** The loop over the user's vehicles, saving each with the flag. */
  method FijarActivoEnBd(db: Store.Db, usuarioId: nat, activo: bool)
    modifies db`vehiculos
    ensures db.vehiculos == FijarActivo(old(db.vehiculos), usuarioId, activo)
  {
    var vehiculos := db.vehiculos;
    ghost var objetivo := FijarActivo(vehiculos, usuarioId, activo);
    var pendientes := vehiculos.Keys;
    while pendientes != {}
      invariant vehiculos.Keys == objetivo.Keys == db.vehiculos.Keys
      invariant pendientes <= vehiculos.Keys
      invariant forall v :: v in vehiculos ==> vehiculos[v] == if v in pendientes then db.vehiculos[v] else objetivo[v]
      decreases |pendientes|
    {
      var v :| v in pendientes;
      if vehiculos[v].usuarioId == usuarioId {
        vehiculos := vehiculos[v := vehiculos[v].(activo := activo)];
      }
      pendientes := pendientes - {v};
    }
    assert vehiculos == objetivo;
    db.vehiculos := vehiculos;
  }

  // ---------------------------------------------------------------- create

  /** The checks crearConRegistrador makes before saving, in their order: the
      suspension in effect at `now`, the dto, then the user, vehicle and rule lookups. */
  function ErrorAlCrear(s: State, dto: SancionDto, now: Time): (r: Option<Error>)
    ensures r.None? ==> (ValidarDatosSancion(dto).None?
      && dto.usuarioId.value in s.usuarios && dto.vehiculoId.value in s.vehiculos && dto.reglaId.value in s.reglas)
  {
    if dto.usuarioId.Some? && Suspendido(s.sanciones, dto.usuarioId.value, now) then
      Some(IllegalArgument(MSG_YA_SUSPENDIDO))
    else if ValidarDatosSancion(dto).Some? then ValidarDatosSancion(dto)
    else if dto.usuarioId.value !in s.usuarios then Some(EntityNotFound("Usuario no encontrado"))
    else if dto.vehiculoId.value !in s.vehiculos then Some(EntityNotFound("Vehículo no encontrado"))
    else if dto.reglaId.value !in s.reglas then Some(EntityNotFound("Regla no encontrada"))
    else None
  }

  /** The sanction crearConRegistrador saves: the dto's fields, the author, and
      the punishment the table gives for the user's count of this fault kind. */
  function NuevaSancion(s: State, dto: SancionDto, registradaPor: Option<nat>, now: Time, mes: Duration): Sancion
    requires ErrorAlCrear(s, dto, now).None?
  {
    var usuarioId := dto.usuarioId.value;
    var tipo := s.reglas[dto.reglaId.value].tipoFalta;
    var castigo := CastigoPara(tipo, Reincidencias(s, usuarioId, tipo), now, mes);
    Sancion(usuarioId, dto.vehiculoId.value, dto.motivo.value, dto.estado.value,
      dto.registroSancion.value, dto.fechaResolucion, dto.observaciones, registradaPor,
      Some(castigo.tipo), castigo.inicio, castigo.fin)
  }

  /** crearConRegistrador. The suspension check reads the clock at `now`, which
      also starts any new suspension; the closing status update reads it again
      at `now2`. `mes` is the length of plusMonths(1). Returns the new id. */
  function CrearConRegistrador(s: State, dto: SancionDto, registradaPor: Option<nat>, now: Time, now2: Time, mes: Duration): Step<nat>
  {
    match ErrorAlCrear(s, dto, now)
    case Some(e) => Step(s, Err(e))
    case None => Step(ActualizarEstadoUsuario(ConNuevaSancion(s, dto, registradaPor, now, mes), dto.usuarioId.value, now2), Ok(s.nextId))
  }

  /** The database right after the save of crearConRegistrador. */
  function ConNuevaSancion(s: State, dto: SancionDto, registradaPor: Option<nat>, now: Time, mes: Duration): State
    requires ErrorAlCrear(s, dto, now).None?
  {
    s.(sanciones := s.sanciones[s.nextId := NuevaSancion(s, dto, registradaPor, now, mes)], nextId := s.nextId + 1)
  }

  /** A user with a suspension in effect cannot be sanctioned again: the call
      throws IllegalArgumentException and saves nothing. */
  lemma CrearRechazaSuspendido(s: State, dto: SancionDto, registradaPor: Option<nat>, now: Time, now2: Time, mes: Duration)
    requires dto.usuarioId.Some? && Suspendido(s.sanciones, dto.usuarioId.value, now)
    ensures CrearConRegistrador(s, dto, registradaPor, now, now2, mes) == Step(s, Err(IllegalArgument(MSG_YA_SUSPENDIDO)))
  {
  }

  /** Every failure leaves the database untouched; a success stores exactly one
      new sanction, with the punishment the table gives for the user's count,
      and changes no other sanction, detail or reservation. */
  lemma CrearGuarda(s: State, dto: SancionDto, registradaPor: Option<nat>, now: Time, now2: Time, mes: Duration)
    ensures var st := CrearConRegistrador(s, dto, registradaPor, now, now2, mes);
      && (st.result.Err? ==> st.state == s)
      && (st.result.Ok? ==>
            var id := st.result.value;
            var tipo := s.reglas[dto.reglaId.value].tipoFalta;
            var c := CastigoPara(tipo, Reincidencias(s, dto.usuarioId.value, tipo), now, mes);
            && id == s.nextId
            && st.state.sanciones == s.sanciones[id := st.state.sanciones[id]]
            && st.state.sanciones[id].usuarioId == dto.usuarioId.value
            && st.state.sanciones[id].registradaPor == registradaPor
            && st.state.sanciones[id].tipoCastigo == Some(c.tipo)
            && st.state.sanciones[id].fechaInicioSuspension == c.inicio
            && st.state.sanciones[id].fechaFinSuspension == c.fin
            && st.state.detalles == s.detalles && st.state.reservas == s.reservas
            && !Suspendido(s.sanciones, dto.usuarioId.value, now))
  {
  }

  /** Because the new suspension starts at `now` and the check is strict, when
      the closing status update reads the same instant the user stays (or
      becomes) active, even if a suspension was just applied. */
  lemma CrearMismoInstanteDejaActivo(s: State, dto: SancionDto, registradaPor: Option<nat>, now: Time, mes: Duration)
    requires CrearConRegistrador(s, dto, registradaPor, now, now, mes).result.Ok?
    ensures var t := CrearConRegistrador(s, dto, registradaPor, now, now, mes).state;
      !Suspendido(t.sanciones, dto.usuarioId.value, now)
      && t.usuarios[dto.usuarioId.value].activo
  {
    var usuarioId := dto.usuarioId.value;
    var st := CrearConRegistrador(s, dto, registradaPor, now, now, mes);
    var id := s.nextId;
    var t := st.state;
    forall k | k in t.sanciones && t.sanciones[k].usuarioId == usuarioId
      ensures !SuspensionEfectiva(t.sanciones[k], now)
    {
      if k == id {
        var tipo := s.reglas[dto.reglaId.value].tipoFalta;
        VentanaSiiSuspension(tipo, Reincidencias(s, usuarioId, tipo), now, mes);
      }
    }
  }

  /** When the status update reads a later instant inside a new one-week or
      one-month window, the user and all the user's vehicles end up inactive. */
  lemma CrearSuspensionDesactiva(s: State, dto: SancionDto, registradaPor: Option<nat>, now: Time, now2: Time, mes: Duration)
    requires CrearConRegistrador(s, dto, registradaPor, now, now2, mes).result.Ok?
    requires dto.estado == Some(ACTIVA)
    requires var t := CrearConRegistrador(s, dto, registradaPor, now, now2, mes).state;
      var id := s.nextId;
      t.sanciones[id].fechaFinSuspension.Some? && now < now2 < t.sanciones[id].fechaFinSuspension.value
    ensures var t := CrearConRegistrador(s, dto, registradaPor, now, now2, mes).state;
      && !t.usuarios[dto.usuarioId.value].activo
      && forall v :: v in t.vehiculos && t.vehiculos[v].usuarioId == dto.usuarioId.value ==> !t.vehiculos[v].activo
  {
    var usuarioId := dto.usuarioId.value;
    var tipo := s.reglas[dto.reglaId.value].tipoFalta;
    VentanaSiiSuspension(tipo, Reincidencias(s, usuarioId, tipo), now, mes);
    var id := s.nextId;
    var guardada := CrearConRegistrador(s, dto, registradaPor, now, now2, mes).state;
    assert SuspensionEfectiva(guardada.sanciones[id], now2);
  }

  /** The save of crearConRegistrador: the new sanction takes the next id. */
  method GuardarNuevaSancion(db: Store.Db, dto: SancionDto, registradaPor: Option<nat>, now: Time, mes: Duration)
    returns (id: nat)
    requires ErrorAlCrear(db.Snapshot(), dto, now).None?
    modifies db`sanciones, db`nextId
    ensures id == old(db.nextId)
    ensures db.Snapshot() == ConNuevaSancion(old(db.Snapshot()), dto, registradaPor, now, mes)
  {
    var nueva := NuevaSancion(db.Snapshot(), dto, registradaPor, now, mes);
    id := db.NuevoId();
    db.sanciones := db.sanciones[id := nueva];
  }

  method CrearConRegistradorEnBd(db: Store.Db, dto: SancionDto, registradaPor: Option<nat>, now: Time, now2: Time, mes: Duration)
    returns (r: Result<nat>)
    modifies db
    ensures r == CrearConRegistrador(old(db.Snapshot()), dto, registradaPor, now, now2, mes).result
    ensures db.Snapshot() == CrearConRegistrador(old(db.Snapshot()), dto, registradaPor, now, now2, mes).state
  {
    var error := ErrorAlCrear(db.Snapshot(), dto, now);
    if error.Some? {
      return Err(error.value);
    }
    var id := GuardarNuevaSancion(db, dto, registradaPor, now, mes);
    ActualizarEstadoUsuarioPorSanciones(db, dto.usuarioId.value, now2);
    r := Ok(id);
  }

  // ---------------------------------------------------------------- update

  /** The checks actualizar makes before saving, in their order: the id, its
      row, the dto, then the user and vehicle lookups. */
  function ErrorAlActualizar(s: State, id: Option<nat>, dto: SancionDto): (r: Option<Error>)
    ensures r.None? ==> (id.Some? && id.value in s.sanciones && ValidarDatosSancion(dto).None?
      && dto.usuarioId.value in s.usuarios && dto.vehiculoId.value in s.vehiculos)
  {
    if id.None? then Some(IllegalArgument("El ID no puede ser null"))
    else if id.value !in s.sanciones then Some(EntityNotFound("Sanción no encontrada con ID: " + NatToString(id.value)))
    else if ValidarDatosSancion(dto).Some? then ValidarDatosSancion(dto)
    else if dto.usuarioId.value !in s.usuarios then Some(EntityNotFound("Usuario no encontrado"))
    else if dto.vehiculoId.value !in s.vehiculos then Some(EntityNotFound("Vehículo no encontrado"))
    else None
  }

  /** The sanction actualizar saves over `original`: the dto's fields, the
      original author, a resolution date stamped at `now` only on a change into
      RESUELTA or ANULADA, and the original observaciones when the dto has none. */
  function SancionActualizada(original: Sancion, dto: SancionDto, now: Time): Sancion
    requires ValidarDatosSancion(dto).None?
  {
    var estado := dto.estado.value;
    var fechaResolucion :=
      if original.estado != estado && (estado == RESUELTA || estado == ANULADA) then Some(now)
      else original.fechaResolucion;
    var observaciones := if dto.observaciones.Some? then dto.observaciones else original.observaciones;
    Sancion(dto.usuarioId.value, dto.vehiculoId.value, dto.motivo.value, estado,
      dto.registroSancion.value, fechaResolucion, observaciones, original.registradaPor,
      dto.tipoCastigo, dto.fechaInicioSuspension, dto.fechaFinSuspension)
  }

  /** The database right after the save of actualizar. */
  function ConSancionActualizada(s: State, id: nat, dto: SancionDto, now: Time): State
    requires id in s.sanciones && ValidarDatosSancion(dto).None?
  {
    s.(sanciones := s.sanciones[id := SancionActualizada(s.sanciones[id], dto, now)])
  }

  /** actualizar(id, dto): the stored sanction is replaced by the merge above,
      then the user's status is recomputed at `now2`. */
  function Actualizar(s: State, id: Option<nat>, dto: SancionDto, now: Time, now2: Time): Step<nat>
  {
    match ErrorAlActualizar(s, id, dto)
    case Some(e) => Step(s, Err(e))
    case None => Step(ActualizarEstadoUsuario(ConSancionActualizada(s, id.value, dto, now), dto.usuarioId.value, now2), Ok(id.value))
  }

  /** The field merge of actualizar, and nothing saved on failure. */
  lemma ActualizarConserva(s: State, id: Option<nat>, dto: SancionDto, now: Time, now2: Time)
    ensures var st := Actualizar(s, id, dto, now, now2);
      && (id.None? ==> st.result == Err(IllegalArgument("El ID no puede ser null")))
      && (id.Some? && id.value !in s.sanciones ==> st.result.Err? && st.result.error.EntityNotFound?)
      && (st.result.Err? ==> st.state == s)
      && (st.result.Ok? ==>
            var original := s.sanciones[id.value];
            var nueva := st.state.sanciones[id.value];
            && id.Some? && id.value in s.sanciones
            && st.state.sanciones == s.sanciones[id.value := nueva]
            && nueva.estado == dto.estado.value
            && nueva.usuarioId == dto.usuarioId.value && nueva.motivo == dto.motivo.value
            && nueva.registradaPor == original.registradaPor
            && nueva.fechaResolucion ==
                 (if original.estado != nueva.estado && nueva.estado in {RESUELTA, ANULADA} then Some(now)
                  else original.fechaResolucion)
            && nueva.observaciones == (if dto.observaciones.None? then original.observaciones else dto.observaciones))
  {
    var st := Actualizar(s, id, dto, now, now2);
    if st.result.Ok? {
      var guardada := ConSancionActualizada(s, id.value, dto, now);
      EstadoUsuarioCorrecto(guardada, dto.usuarioId.value, now2);
    }
  }

  /** The save of actualizar. */
  method GuardarSancionActualizada(db: Store.Db, id: nat, dto: SancionDto, now: Time)
    requires id in db.sanciones && ValidarDatosSancion(dto).None?
    modifies db`sanciones
    ensures db.Snapshot() == ConSancionActualizada(old(db.Snapshot()), id, dto, now)
  {
    var original := db.sanciones[id];
    var actualizada := Sancion(dto.usuarioId.value, dto.vehiculoId.value, dto.motivo.value, dto.estado.value,
      dto.registroSancion.value, dto.fechaResolucion, dto.observaciones, original.registradaPor,
      dto.tipoCastigo, dto.fechaInicioSuspension, dto.fechaFinSuspension);
    if original.estado != dto.estado.value && (dto.estado.value == RESUELTA || dto.estado.value == ANULADA) {
      actualizada := actualizada.(fechaResolucion := Some(now));
    } else {
      actualizada := actualizada.(fechaResolucion := original.fechaResolucion);
    }
    if dto.observaciones.Some? {
      actualizada := actualizada.(observaciones := dto.observaciones);
    } else {
      actualizada := actualizada.(observaciones := original.observaciones);
    }
    db.sanciones := db.sanciones[id := actualizada];
  }

  method ActualizarEnBd(db: Store.Db, id: Option<nat>, dto: SancionDto, now: Time, now2: Time) returns (r: Result<nat>)
    modifies db
    ensures r == Actualizar(old(db.Snapshot()), id, dto, now, now2).result
    ensures db.Snapshot() == Actualizar(old(db.Snapshot()), id, dto, now, now2).state
  {
    var error := ErrorAlActualizar(db.Snapshot(), id, dto);
    if error.Some? {
      return Err(error.value);
    }
    GuardarSancionActualizada(db, id.value, dto, now);
    ActualizarEstadoUsuarioPorSanciones(db, dto.usuarioId.value, now2);
    r := Ok(id.value);
  }
}
