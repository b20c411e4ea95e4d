/** The QR checkpoint protocol of EscaneoQRServiceImpl: a reservation's QR is
    minted as ENTRADA by crear of the reservation service, turned into SALIDA at
    the entry gate and into SALIDA_USADA at the exit gate; each scan drives the
    reservation's and the space's status. */
module EscaneoQrService {
  import opened Common
  import opened Entities
  import Store

  const MSG_RESERVA_NULL: string := "El ID de la reserva no puede ser null"
  const MSG_NO_ES_SALIDA: string := "El QR actual no es de salida o ya fue usado"
  const MSG_RESERVA_OBLIGATORIA: string := "La reserva es obligatoria"

  /** The fields of EscaneoQRDto; null is None. */
  datatype EscaneoQrDto = EscaneoQrDto(
    reservaId: Option<nat>,
    timestampEnt: Option<Time>,
    timestampSal: Option<Time>,
    token: Option<string>,
    tipo: Option<string>,
    fechaExpiracion: Option<Time>,
    fechaInicioValidez: Option<Time>)

  // ------------------------------------------------------------------ crear

  /** validarDatosEscaneo: the reservation id and the entry instant must be present. */
  function ValidarDatosEscaneo(dto: EscaneoQrDto): (r: Option<Error>)
    ensures r.None? <==> dto.reservaId.Some? && dto.timestampEnt.Some?
  {
    if dto.reservaId.None? then Some(IllegalArgument("El ID de la reserva no puede estar vacío"))
    else if dto.timestampEnt.None? then Some(IllegalArgument("El timestamp de entrada no puede estar vacío"))
    else None
  }

  /** The entity crear hands to save: the mapper copies only the kind, the start
      of validity and the token; the token is then replaced by a fresh one and
      the entry instant by the clock. The reservation link is never copied. */
  function EscaneoConstruido(dto: EscaneoQrDto, now: Time, token: string): EscaneoQrDto
  {
    EscaneoQrDto(None, Some(now), None, Some(token), dto.tipo, None, dto.fechaInicioValidez)
  }

  /** crear: validate, build the entity, save it. The entity's reservation is
      marked @NotNull, so save refuses an entity without one. */
  function CrearEscaneo(dto: EscaneoQrDto, now: Time, token: string): Result<EscaneoQrDto>
  {
    match ValidarDatosEscaneo(dto)
    case Some(e) => Err(e)
    case None =>
      var e := EscaneoConstruido(dto, now, token);
      if e.reservaId.None? then Err(ConstraintViolation(MSG_RESERVA_OBLIGATORIA)) else Ok(e)
  }

  /** crear never succeeds. A dto without a reservation id or an entry instant
      is refused by the validation; any other dto is refused by save, because
      the entity built from it carries no reservation (it has the fresh token
      and the entry instant `now` whatever the dto says, keeps the dto's kind
      and start of validity, and has no exit instant and no expiry). */
  lemma CrearEscaneoCaracterizado(dto: EscaneoQrDto, now: Time, token: string)
    ensures CrearEscaneo(dto, now, token).Err?
    ensures CrearEscaneo(dto, now, token).error.IllegalArgument? <==> dto.reservaId.None? || dto.timestampEnt.None?
    ensures CrearEscaneo(dto, now, token).error == ConstraintViolation(MSG_RESERVA_OBLIGATORIA)
      <==> dto.reservaId.Some? && dto.timestampEnt.Some?
    ensures var e := EscaneoConstruido(dto, now, token);
      && e.token == Some(token) && e.timestampEnt == Some(now)
      && e.tipo == dto.tipo && e.fechaInicioValidez == dto.fechaInicioValidez
      && e.reservaId.None? && e.timestampSal.None? && e.fechaExpiracion.None?
  {
  }

  // ------------------------------------------------------ common lookups

  /** The guards both scans share: a present reservation id, a stored
      reservation, and a QR linked to it. */
  function ErrorDeBusqueda(s: State, reservaId: Option<nat>, msgQr: string): (r: Option<Error>)
    ensures r.None? <==> reservaId.Some? && reservaId.value in s.reservas && QrsDeReserva(s.qrs, reservaId.value) != {}
  {
    if reservaId.None? then Some(IllegalArgument(MSG_RESERVA_NULL))
    else if reservaId.value !in s.reservas then Some(EntityNotFound("Reserva no encontrada con ID: " + NatToString(reservaId.value)))
    else if QrsDeReserva(s.qrs, reservaId.value) == {} then Some(EntityNotFound(msgQr))
    else None
  }

  /** obtenerPorReserva: the QR of the reservation. Read-only. */
  ghost function ObtenerPorReserva(s: State, reservaId: Option<nat>): (r: Result<EscaneoQr>)
    ensures r.Ok? <==> ErrorDeBusqueda(s, reservaId, "Escaneo no encontrado para esta reserva").None?
    ensures r.Ok? ==> exists q :: q in s.qrs && s.qrs[q] == r.value && r.value.reserva == reservaId
  {
    match ErrorDeBusqueda(s, reservaId, "Escaneo no encontrado para esta reserva")
    case Some(e) => Err(e)
    case None => Ok(s.qrs[QrDeReserva(s.qrs, reservaId.value).value])
  }

  // ------------------------------------------------------- registrarEntrada

  /** The database after an entry scan of QR `q` of reservation `id`: the QR
      records the entry, becomes the exit QR with a fresh token and no expiry;
      the reservation is ACTIVO; its space, when it has one, OCUPADO. */
  function ConEntrada(s: State, id: nat, q: nat, now: Time, token: string): State
    requires id in s.reservas && q in s.qrs
  {
    var e := s.reservas[id].espacioId;
    s.(qrs := s.qrs[q := s.qrs[q].(timestampEnt := Some(now), tipo := "SALIDA", token := token, fechaExpiracion := None)],
       reservas := s.reservas[id := s.reservas[id].(estado := EstadoReserva.ACTIVO)],
       espacios := if e in s.espacios then s.espacios[e := s.espacios[e].(estado := EstadoEspacio.OCUPADO)] else s.espacios)
  }

  /** registrarEntrada; returns the id of the QR. `token` stands for the random UUID. */
  ghost function RegistrarEntrada(s: State, reservaId: Option<nat>, now: Time, token: string): Step<nat>
  {
    match ErrorDeBusqueda(s, reservaId, "QR de entrada no encontrado para esta reserva")
    case Some(e) => Step(s, Err(e))
    case None =>
      var q := QrDeReserva(s.qrs, reservaId.value).value;
      Step(ConEntrada(s, reservaId.value, q, now, token), Ok(q))
  }

  /** An entry scan fails exactly when a guard fails, and then changes nothing.
      On success the reservation's QR records the entry at `now`, becomes a
      SALIDA QR with the fresh token and no expiry, the reservation is ACTIVO
      and its space OCUPADO; no other QR or reservation changes. Nothing is
      required of the reservation's or the QR's prior state. */
  lemma EntradaCaracterizada(s: State, reservaId: Option<nat>, now: Time, token: string)
    requires Valid(s)
    ensures RegistrarEntrada(s, reservaId, now, token).result.Ok? <==>
      ErrorDeBusqueda(s, reservaId, "QR de entrada no encontrado para esta reserva").None?
    ensures RegistrarEntrada(s, reservaId, now, token).result.Err? ==> RegistrarEntrada(s, reservaId, now, token).state == s
    ensures reservaId.None? ==> RegistrarEntrada(s, reservaId, now, token).result == Err(IllegalArgument(MSG_RESERVA_NULL))
    ensures RegistrarEntrada(s, reservaId, now, token).result.Ok? ==>
      var id := reservaId.value;
      var q := RegistrarEntrada(s, reservaId, now, token).result.value;
      var t := RegistrarEntrada(s, reservaId, now, token).state;
      && q in s.qrs && s.qrs[q].reserva == Some(id) && q in t.qrs && id in t.reservas
      && t.qrs[q] == s.qrs[q].(timestampEnt := Some(now), tipo := "SALIDA", token := token, fechaExpiracion := None)
      && t.reservas[id] == s.reservas[id].(estado := EstadoReserva.ACTIVO)
      && (s.reservas[id].espacioId in s.espacios ==>
            s.reservas[id].espacioId in t.espacios && t.espacios[s.reservas[id].espacioId].estado == EstadoEspacio.OCUPADO)
      && (forall k :: k in s.qrs && k != q ==> k in t.qrs && t.qrs[k] == s.qrs[k])
      && (forall k :: k in s.reservas && k != id ==> k in t.reservas && t.reservas[k] == s.reservas[k])
      && t.sanciones == s.sanciones && t.usuarios == s.usuarios
  {
  }

  /** The entry scan of a reservation with a QR is that QR's rewrite. */
  lemma EntradaDe(s: State, id: nat, q: nat, now: Time, token: string)
    requires Valid(s) && id in s.reservas && q in s.qrs && s.qrs[q].reserva == Some(id)
    ensures RegistrarEntrada(s, Some(id), now, token) == Step(ConEntrada(s, id, q, now, token), Ok(q))
  {
    QrDeReservaUnico(s, id, q);
  }

  /** An entry scan keeps the database well formed when the token is fresh. */
  lemma EntradaPreservaValido(s: State, reservaId: Option<nat>, now: Time, token: string)
    requires Valid(s) && token !in Tokens(s.qrs)
    ensures Valid(RegistrarEntrada(s, reservaId, now, token).state)
  {
    var st := RegistrarEntrada(s, reservaId, now, token);
    if st.result.Ok? {
      var q := st.result.value;
      var t := st.state;
      forall k | k in s.qrs && k != q
        ensures t.qrs[k].token != token
      {
        assert s.qrs[k].token in Tokens(s.qrs);
      }
    }
  }

  /** The entry scan does not look at the reservation's state: a FINALIZADO
      reservation whose QR is scanned at the entry becomes ACTIVO again. */
  lemma EntradaReabreFinalizada(s: State, id: nat, now: Time, token: string)
    requires Valid(s)
    requires id in s.reservas && s.reservas[id].estado == EstadoReserva.FINALIZADO && QrsDeReserva(s.qrs, id) != {}
    ensures var st := RegistrarEntrada(s, Some(id), now, token);
      st.result.Ok? && st.state.reservas[id].estado == EstadoReserva.ACTIVO
  {
    EntradaCaracterizada(s, Some(id), now, token);
  }

  /** Saves of an entry scan: the QR, the reservation, the space. */
  method GuardarEntrada(db: Store.Db, id: nat, q: nat, now: Time, token: string)
    requires id in db.reservas && q in db.qrs
    modifies db`qrs, db`reservas, db`espacios
    ensures db.Snapshot() == ConEntrada(old(db.Snapshot()), id, q, now, token)
  {
    db.qrs := db.qrs[q := db.qrs[q].(timestampEnt := Some(now), tipo := "SALIDA", token := token, fechaExpiracion := None)];
    db.reservas := db.reservas[id := db.reservas[id].(estado := EstadoReserva.ACTIVO)];
    var e := db.reservas[id].espacioId;
    if e in db.espacios {
      db.espacios := db.espacios[e := db.espacios[e].(estado := EstadoEspacio.OCUPADO)];
    }
  }

  /** registrarEntrada on the database; the QR table's unique reserva_id
      column (Valid) makes findByReserva's answer the only candidate. */
  method RegistrarEntradaEnBd(db: Store.Db, reservaId: Option<nat>, now: Time, token: string) returns (r: Result<nat>)
    requires db.Valid()
    modifies db`qrs, db`reservas, db`espacios
    ensures r == RegistrarEntrada(old(db.Snapshot()), reservaId, now, token).result
    ensures db.Snapshot() == RegistrarEntrada(old(db.Snapshot()), reservaId, now, token).state
  {
    var error := ErrorDeBusqueda(db.Snapshot(), reservaId, "QR de entrada no encontrado para esta reserva");
    if error.Some? {
      return Err(error.value);
    }
    var id := reservaId.value;
    var q :| q in db.qrs && db.qrs[q].reserva == Some(id);
    QrDeReservaUnico(db.Snapshot(), id, q);
    GuardarEntrada(db, id, q, now, token);
    r := Ok(q);
  }

  // -------------------------------------------------------- registrarSalida

  /** The database after an exit scan of QR `q` of reservation `id`. */
  function ConSalida(s: State, id: nat, q: nat, now: Time): State
    requires id in s.reservas && q in s.qrs
  {
    var e := s.reservas[id].espacioId;
    s.(qrs := s.qrs[q := s.qrs[q].(tipo := "SALIDA_USADA", timestampSal := Some(now))],
       reservas := s.reservas[id := s.reservas[id].(estado := EstadoReserva.FINALIZADO)],
       espacios := if e in s.espacios then s.espacios[e := s.espacios[e].(estado := EstadoEspacio.DISPONIBLE)] else s.espacios)
  }

  /** registrarSalida; returns the id of the QR. Only a QR whose kind is exactly
      SALIDA is accepted. */
  ghost function RegistrarSalida(s: State, reservaId: Option<nat>, now: Time): Step<nat>
  {
    match ErrorDeBusqueda(s, reservaId, "QR de salida no encontrado para esta reserva")
    case Some(e) => Step(s, Err(e))
    case None =>
      var q := QrDeReserva(s.qrs, reservaId.value).value;
      if s.qrs[q].tipo != "SALIDA" then Step(s, Err(IllegalState(MSG_NO_ES_SALIDA)))
      else Step(ConSalida(s, reservaId.value, q, now), Ok(q))
  }

  /** An exit scan succeeds exactly when the guards pass and the reservation's
      QR is of kind SALIDA; a failure changes nothing. On success the QR is
      SALIDA_USADA with the exit instant `now`, the reservation FINALIZADO and
      its space DISPONIBLE. */
  lemma SalidaCaracterizada(s: State, reservaId: Option<nat>, now: Time)
    requires Valid(s)
    ensures RegistrarSalida(s, reservaId, now).result.Ok? <==>
      && ErrorDeBusqueda(s, reservaId, "QR de salida no encontrado para esta reserva").None?
      && exists q :: q in s.qrs && s.qrs[q].reserva == reservaId && s.qrs[q].tipo == "SALIDA"
    ensures RegistrarSalida(s, reservaId, now).result.Err? ==> RegistrarSalida(s, reservaId, now).state == s
    ensures RegistrarSalida(s, reservaId, now).result.Ok? ==>
      var id := reservaId.value;
      var q := RegistrarSalida(s, reservaId, now).result.value;
      var t := RegistrarSalida(s, reservaId, now).state;
      && q in s.qrs && s.qrs[q].reserva == Some(id) && s.qrs[q].tipo == "SALIDA" && q in t.qrs && id in t.reservas
      && t.qrs[q] == s.qrs[q].(tipo := "SALIDA_USADA", timestampSal := Some(now))
      && t.reservas[id] == s.reservas[id].(estado := EstadoReserva.FINALIZADO)
      && (s.reservas[id].espacioId in s.espacios ==>
            s.reservas[id].espacioId in t.espacios && t.espacios[s.reservas[id].espacioId].estado == EstadoEspacio.DISPONIBLE)
      && (forall k :: k in s.qrs && k != q ==> k in t.qrs && t.qrs[k] == s.qrs[k])
      && t.sanciones == s.sanciones && t.usuarios == s.usuarios
  {
    if ErrorDeBusqueda(s, reservaId, "QR de salida no encontrado para esta reserva").None? {
      var id := reservaId.value;
      var q := QrDeReserva(s.qrs, id).value;
      if s.qrs[q].tipo == "SALIDA" {
        assert RegistrarSalida(s, reservaId, now) == Step(ConSalida(s, id, q, now), Ok(q));
      } else {
        assert RegistrarSalida(s, reservaId, now) == Step(s, Err(IllegalState(MSG_NO_ES_SALIDA)));
        forall k | k in s.qrs && s.qrs[k].reserva == reservaId
          ensures s.qrs[k].tipo != "SALIDA"
        {
          QrDeReservaUnico(s, id, k);
        }
      }
    }
  }

  /** The exit scan of a reservation whose QR is of kind SALIDA is that QR's rewrite. */
  lemma SalidaDe(s: State, id: nat, q: nat, now: Time)
    requires Valid(s) && id in s.reservas && q in s.qrs && s.qrs[q].reserva == Some(id) && s.qrs[q].tipo == "SALIDA"
    ensures RegistrarSalida(s, Some(id), now) == Step(ConSalida(s, id, q, now), Ok(q))
  {
    QrDeReservaUnico(s, id, q);
  }

  /** Rewriting QRs in place without touching their tokens or reservation links,
      and the status of reservations and spaces, keeps the database well formed. */
  lemma ClavesConservadas(s: State, t: State)
    requires Valid(s)
    requires t.qrs.Keys == s.qrs.Keys && t.reservas.Keys == s.reservas.Keys
    requires forall k :: k in s.qrs ==> t.qrs[k].token == s.qrs[k].token && t.qrs[k].reserva == s.qrs[k].reserva
    requires t.sanciones == s.sanciones && t.detalles == s.detalles && t.nextId == s.nextId
    ensures Valid(t)
  {
  }

  /** An exit cannot be replayed: after a successful exit scan a second one
      throws IllegalStateException and changes nothing. */
  lemma SalidaNoSeRepite(s: State, id: nat, now: Time, later: Time)
    requires Valid(s)
    requires RegistrarSalida(s, Some(id), now).result.Ok?
    ensures var t := RegistrarSalida(s, Some(id), now).state;
      RegistrarSalida(t, Some(id), later) == Step(t, Err(IllegalState(MSG_NO_ES_SALIDA)))
  {
    SalidaCaracterizada(s, Some(id), now);
    var q := RegistrarSalida(s, Some(id), now).result.value;
    var t := RegistrarSalida(s, Some(id), now).state;
    ClavesConservadas(s, t);
    QrDeReservaUnico(t, id, q);
  }

  /** The round trip: a RESERVADO reservation with an unused ENTRADA QR, scanned
      at the entry and then at the exit, ends FINALIZADO, with its space
      DISPONIBLE and its QR SALIDA_USADA carrying both instants. */
  lemma EntradaYSalida(s: State, id: nat, t1: Time, t2: Time, token: string)
    requires Valid(s) && token !in Tokens(s.qrs)
    requires id in s.reservas && s.reservas[id].estado == EstadoReserva.RESERVADO
    requires exists q :: q in s.qrs && s.qrs[q].reserva == Some(id) && s.qrs[q].tipo == "ENTRADA"
    ensures var e := RegistrarEntrada(s, Some(id), t1, token);
      var x := RegistrarSalida(e.state, Some(id), t2);
      && e.result.Ok? && x.result == e.result
      && x.state.reservas[id].estado == EstadoReserva.FINALIZADO
      && (s.reservas[id].espacioId in s.espacios ==> x.state.espacios[s.reservas[id].espacioId].estado == EstadoEspacio.DISPONIBLE)
      && x.state.qrs[e.result.value].tipo == "SALIDA_USADA"
      && x.state.qrs[e.result.value].timestampEnt == Some(t1)
      && x.state.qrs[e.result.value].timestampSal == Some(t2)
      && x.state.qrs[e.result.value].token == token
  {
    var q :| q in s.qrs && s.qrs[q].reserva == Some(id) && s.qrs[q].tipo == "ENTRADA";
    QrDeReservaUnico(s, id, q);
    EntradaCaracterizada(s, Some(id), t1, token);
    EntradaPreservaValido(s, Some(id), t1, token);
    var e := RegistrarEntrada(s, Some(id), t1, token);
    assert q in QrsDeReserva(e.state.qrs, id);
    QrDeReservaUnico(e.state, id, q);
    SalidaCaracterizada(e.state, Some(id), t2);
  }

  /** Saves of an exit scan: the QR, the reservation, the space. */
  method GuardarSalida(db: Store.Db, id: nat, q: nat, now: Time)
    requires id in db.reservas && q in db.qrs
    modifies db`qrs, db`reservas, db`espacios
    ensures db.Snapshot() == ConSalida(old(db.Snapshot()), id, q, now)
  {
    db.qrs := db.qrs[q := db.qrs[q].(tipo := "SALIDA_USADA", timestampSal := Some(now))];
    db.reservas := db.reservas[id := db.reservas[id].(estado := EstadoReserva.FINALIZADO)];
    var e := db.reservas[id].espacioId;
    if e in db.espacios {
      db.espacios := db.espacios[e := db.espacios[e].(estado := EstadoEspacio.DISPONIBLE)];
    }
  }

  /** registrarSalida on the database. */
  method RegistrarSalidaEnBd(db: Store.Db, reservaId: Option<nat>, now: Time) returns (r: Result<nat>)
    requires db.Valid()
    modifies db`qrs, db`reservas, db`espacios
    ensures r == RegistrarSalida(old(db.Snapshot()), reservaId, now).result
    ensures db.Snapshot() == RegistrarSalida(old(db.Snapshot()), reservaId, now).state
  {
    var error := ErrorDeBusqueda(db.Snapshot(), reservaId, "QR de salida no encontrado para esta reserva");
    if error.Some? {
      return Err(error.value);
    }
    var id := reservaId.value;
    var q :| q in db.qrs && db.qrs[q].reserva == Some(id);
    QrDeReservaUnico(db.Snapshot(), id, q);
    if db.qrs[q].tipo != "SALIDA" {
      return Err(IllegalState(MSG_NO_ES_SALIDA));
    }
    GuardarSalida(db, id, q, now);
    r := Ok(q);
  }
}
