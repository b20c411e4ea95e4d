/** The gate endpoints of ValidacionController: the read-only "what does this
    QR mean" answer, and the entry and exit registrations that check the QR's
    kind and the reservation's state before calling EscaneoQRService. */
module ValidacionController {
  import opened Common
  import opened Entities
  import EscaneoQrService
  import Store

  const MSG_NO_ENCONTRADO: string := "QR no encontrado o tipo incorrecto"
  const MSG_AUN_NO_VALIDO: string := "QR de entrada aún no es válido. Solo se puede usar a partir de: "
  const MSG_EXPIRADO: string := "QR de entrada expirado"
  const MSG_YA_ENTRADA: string := "QR ya validado para entrada. Use el QR de salida para registrar la salida."
  const MSG_YA_SALIDA: string := "QR ya validado para salida. La reserva está finalizada."
  const MSG_VALIDO: string := "QR válido"

  /** The "reservaInfo" map: the user's full name, the plate, the space number,
      and (in validarQR only) the reservation's bounds. */
  datatype InfoReserva = InfoReserva(
    usuario: Option<string>,
    vehiculo: Option<string>,
    espacio: Option<string>,
    fechaInicio: Option<Time>,
    fechaFin: Option<Time>)

  /** The answer of validarQR: "valido", "motivo", "tipo" and, when present, "reservaInfo". */
  datatype Validacion = Validacion(valido: bool, motivo: string, tipo: string, reservaInfo: Option<InfoReserva>)

  /** The answer of registrar-entrada / registrar-salida. */
  datatype Respuesta = Respuesta(exito: bool, motivo: string, reservaInfo: Option<InfoReserva>)

  /** A registration: the database afterwards and the answer. The endpoint
      never throws; exceptions of the service become an answer. */
  datatype Registro = Registro(state: State, respuesta: Respuesta)

  /** The QRs carrying a token (the findAll().stream().filter on the token). */
  function QrsConToken(qrs: map<nat, EscaneoQr>, token: string): set<nat>
  {
    set q | q in qrs && qrs[q].token == token
  }

  /** EscaneoQRRepository.findByTokenAndTipo. */
  function QrsConTokenYTipo(qrs: map<nat, EscaneoQr>, token: string, tipo: string): set<nat>
  {
    set q | q in qrs && qrs[q].token == token && qrs[q].tipo == tipo
  }

  /** The QR validarQR looks at: the one with the token and the requested kind,
      else any one with the token. */
  ghost function QrUsado(qrs: map<nat, EscaneoQr>, token: string, tipo: string): (r: Option<nat>)
    ensures r.Some? ==> r.value in qrs && qrs[r.value].token == token
    ensures r.None? <==> QrsConToken(qrs, token) == {}
  {
    if QrsConTokenYTipo(qrs, token, tipo) != {} then
      var q :| q in QrsConTokenYTipo(qrs, token, tipo); Some(q)
    else if QrsConToken(qrs, token) != {} then
      var q :| q in QrsConToken(qrs, token); Some(q)
    else None
  }

  /** The reservation details the endpoints attach; a missing link gives no entry. */
  function InfoDe(s: State, reserva: Option<nat>, conFechas: bool): Option<InfoReserva>
  {
    if reserva.None? || reserva.value !in s.reservas then None
    else
      var r := s.reservas[reserva.value];
      Some(InfoReserva(
        if r.usuarioId in s.usuarios then Some(s.usuarios[r.usuarioId].nombreCompleto) else None,
        if r.vehiculoId in s.vehiculos then Some(s.vehiculos[r.vehiculoId].placa) else None,
        if r.espacioId in s.espacios then Some(s.espacios[r.espacioId].numeroEspacio) else None,
        if conFechas then Some(r.inicio) else None,
        if conFechas then Some(r.fin) else None))
  }

  /** The if-ladder of validarQR once the QR to look at is known. */
  function Dictamen(s: State, qrUsar: Option<nat>, tipo: string, now: Time): Validacion
    requires qrUsar.Some? ==> qrUsar.value in s.qrs
  {
    match qrUsar
    case None => Validacion(false, MSG_NO_ENCONTRADO, tipo, None)
    case Some(q) =>
      var qr := s.qrs[q];
      var info := InfoDe(s, qr.reserva, true);
      if tipo == "ENTRADA" && qr.fechaInicioValidez.Some? && now < qr.fechaInicioValidez.value then
        Validacion(false, MSG_AUN_NO_VALIDO + TimeToString(qr.fechaInicioValidez.value), qr.tipo, None)
      else if tipo == "ENTRADA" && qr.fechaExpiracion.Some? && qr.fechaExpiracion.value < now then
        Validacion(false, MSG_EXPIRADO, qr.tipo, None)
      else if tipo == "ENTRADA" && (qr.tipo == "ENTRADA_USADA" || qr.tipo == "SALIDA") then
        Validacion(true, MSG_YA_ENTRADA, qr.tipo, info)
      else if tipo == "SALIDA" && (qr.tipo == "SALIDA_USADA" || qr.tipo == "FINALIZADO") then
        Validacion(true, MSG_YA_SALIDA, qr.tipo, info)
      else
        Validacion(true, MSG_VALIDO, qr.tipo, info)
  }

  /** validarQR(token, tipo) at instant `now`. */
  ghost function ValidarQr(s: State, token: string, tipo: string, now: Time): Validacion
  {
    Dictamen(s, QrUsado(s.qrs, token, tipo), tipo, now)
  }

  /** The "not found" answer comes exactly when no QR carries the token. */
  lemma NoEncontradoSii(s: State, token: string, tipo: string, now: Time)
    ensures token !in Tokens(s.qrs) <==> ValidarQr(s, token, tipo, now) == Validacion(false, MSG_NO_ENCONTRADO, tipo, None)
  {
    if token in Tokens(s.qrs) {
      var k :| k in s.qrs && s.qrs[k].token == token;
      assert k in QrsConToken(s.qrs, token);
      var q := QrUsado(s.qrs, token, tipo).value;
      if tipo == "ENTRADA" && s.qrs[q].fechaInicioValidez.Some? && now < s.qrs[q].fechaInicioValidez.value {
        assert |ValidarQr(s, token, tipo, now).motivo| >= |MSG_AUN_NO_VALIDO|;
      }
    } else {
      assert QrsConToken(s.qrs, token) == {};
    }
  }

  /** Under the unique token column the requested kind does not choose the QR:
      the answer is about the one QR carrying the token, whatever its kind. */
  lemma QrUsadoEsElDelToken(s: State, token: string, tipo: string, now: Time, q: nat)
    requires Valid(s)
    requires q in s.qrs && s.qrs[q].token == token
    ensures ValidarQr(s, token, tipo, now) == Dictamen(s, Some(q), tipo, now)
  {
    assert q in QrsConToken(s.qrs, token);
  }

  /** Which answers are negative: for a known token, validarQR refuses only an
      ENTRADA request whose window has not opened yet (reported first) or has
      closed; every other request is valid, carries the stored kind and the
      reservation's details, and tells whether the QR was already used. */
  lemma DictamenCaracterizado(s: State, q: nat, tipo: string, now: Time)
    requires q in s.qrs
    ensures var v := Dictamen(s, Some(q), tipo, now);
      var qr := s.qrs[q];
      var temprano := qr.fechaInicioValidez.Some? && now < qr.fechaInicioValidez.value;
      var vencido := qr.fechaExpiracion.Some? && qr.fechaExpiracion.value < now;
      && v.tipo == qr.tipo
      && (!v.valido <==> tipo == "ENTRADA" && (temprano || vencido))
      && (tipo == "ENTRADA" && temprano ==> v.motivo == MSG_AUN_NO_VALIDO + TimeToString(qr.fechaInicioValidez.value))
      && (tipo == "ENTRADA" && !temprano && vencido ==> v.motivo == MSG_EXPIRADO)
      && (v.valido ==> v.reservaInfo == InfoDe(s, qr.reserva, true))
      && (v.valido && tipo == "ENTRADA" ==> (v.motivo == MSG_YA_ENTRADA <==> qr.tipo == "ENTRADA_USADA" || qr.tipo == "SALIDA"))
      && (tipo == "SALIDA" ==> (v.motivo == MSG_YA_SALIDA <==> qr.tipo == "SALIDA_USADA" || qr.tipo == "FINALIZADO"))
      && (v.valido && tipo != "ENTRADA" && tipo != "SALIDA" ==> v.motivo == MSG_VALIDO)
  {
  }

  /** After an entry scan the QR answers to its new token as already used for
      entry, once its window has opened. */
  lemma TrasEntradaYaValidada(s: State, id: nat, t1: Time, token: string, t2: Time)
    requires Valid(s) && token !in Tokens(s.qrs)
    requires EscaneoQrService.RegistrarEntrada(s, Some(id), t1, token).result.Ok?
    ensures var q := EscaneoQrService.RegistrarEntrada(s, Some(id), t1, token).result.value;
      var t := EscaneoQrService.RegistrarEntrada(s, Some(id), t1, token).state;
      s.qrs[q].fechaInicioValidez.None? || s.qrs[q].fechaInicioValidez.value <= t2 ==>
        ValidarQr(t, token, "ENTRADA", t2).valido && ValidarQr(t, token, "ENTRADA", t2).motivo == MSG_YA_ENTRADA
  {
    var q := QrDeReserva(s.qrs, id).value;
    EscaneoQrService.EntradaDe(s, id, q, t1, token);
    EscaneoQrService.EntradaPreservaValido(s, Some(id), t1, token);
    QrUsadoEsElDelToken(EscaneoQrService.ConEntrada(s, id, q, t1, token), token, "ENTRADA", t2, q);
  }

  /** After an entry scan the QR's new token is a valid exit QR. */
  lemma TrasEntradaSalidaValida(s: State, id: nat, t1: Time, token: string, t2: Time)
    requires Valid(s) && token !in Tokens(s.qrs)
    requires EscaneoQrService.RegistrarEntrada(s, Some(id), t1, token).result.Ok?
    ensures var t := EscaneoQrService.RegistrarEntrada(s, Some(id), t1, token).state;
      ValidarQr(t, token, "SALIDA", t2).valido && ValidarQr(t, token, "SALIDA", t2).motivo == MSG_VALIDO
  {
    var q := QrDeReserva(s.qrs, id).value;
    EscaneoQrService.EntradaDe(s, id, q, t1, token);
    EscaneoQrService.EntradaPreservaValido(s, Some(id), t1, token);
    QrUsadoEsElDelToken(EscaneoQrService.ConEntrada(s, id, q, t1, token), token, "SALIDA", t2, q);
  }

  /** After an entry scan the token the QR had before is no longer known. */
  lemma TrasEntradaTokenRetirado(s: State, id: nat, t1: Time, token: string, t2: Time)
    requires Valid(s) && token !in Tokens(s.qrs)
    requires EscaneoQrService.RegistrarEntrada(s, Some(id), t1, token).result.Ok?
    ensures var q := EscaneoQrService.RegistrarEntrada(s, Some(id), t1, token).result.value;
      var t := EscaneoQrService.RegistrarEntrada(s, Some(id), t1, token).state;
      ValidarQr(t, s.qrs[q].token, "ENTRADA", t2) == Validacion(false, MSG_NO_ENCONTRADO, "ENTRADA", None)
  {
    var q := QrDeReserva(s.qrs, id).value;
    EscaneoQrService.EntradaDe(s, id, q, t1, token);
    var t := EscaneoQrService.ConEntrada(s, id, q, t1, token);
    assert s.qrs[q].token in Tokens(s.qrs);
    assert s.qrs[q].token !in Tokens(t.qrs) by {
      forall k | k in t.qrs ensures t.qrs[k].token != s.qrs[q].token {}
    }
    NoEncontradoSii(t, s.qrs[q].token, "ENTRADA", t2);
  }

  /** After an exit scan the QR answers an exit request as already used. */
  lemma TrasSalida(s: State, id: nat, t1: Time, t2: Time)
    requires Valid(s)
    requires EscaneoQrService.RegistrarSalida(s, Some(id), t1).result.Ok?
    ensures var q := EscaneoQrService.RegistrarSalida(s, Some(id), t1).result.value;
      var t := EscaneoQrService.RegistrarSalida(s, Some(id), t1).state;
      ValidarQr(t, s.qrs[q].token, "SALIDA", t2).valido && ValidarQr(t, s.qrs[q].token, "SALIDA", t2).motivo == MSG_YA_SALIDA
  {
    var q := QrDeReserva(s.qrs, id).value;
    EscaneoQrService.SalidaDe(s, id, q, t1);
    var t := EscaneoQrService.ConSalida(s, id, q, t1);
    EscaneoQrService.ClavesConservadas(s, t);
    QrUsadoEsElDelToken(t, s.qrs[q].token, "SALIDA", t2, q);
  }

  /** validarQR on the database: it only reads. */
  method ValidarQrEnBd(db: Store.Db, token: string, tipo: string, now: Time) returns (v: Validacion)
    requires db.Valid()
    ensures v == ValidarQr(db.Snapshot(), token, tipo, now)
  {
    var conToken := QrsConToken(db.qrs, token);
    if conToken == {} {
      return Validacion(false, MSG_NO_ENCONTRADO, tipo, None);
    }
    var q :| q in conToken;
    QrUsadoEsElDelToken(db.Snapshot(), token, tipo, now, q);
    v := Dictamen(db.Snapshot(), Some(q), tipo, now);
  }

  // ------------------------------------------------- registrar entrada / salida

  /** The message of a caught exception; a NullPointerException has none. */
  function Mensaje(e: Error): string
  {
    match e
    case IllegalArgument(m) => m
    case EntityNotFound(m) => m
    case IllegalState(m) => m
    case Runtime(m) => m
    case UsernameNotFound(m) => m
    case Locked(m) => m
    case NullPointer => "null"
    case ConstraintViolation(m) => m
  }

  /** The guards shared by both registrations: a QR with the token and the
      expected kind, linked to a reservation in the expected state; then the
      service call, whose exceptions are reported. */
  ghost function Registrar(s: State, token: string, tipoQr: string, estado: EstadoReserva, now: Time, nuevoToken: string): Registro
  {
    var entrada := tipoQr == "ENTRADA";
    var c := QrsConTokenYTipo(s.qrs, token, tipoQr);
    if c == {} then
      Registro(s, Respuesta(false, if entrada then "QR de entrada no encontrado" else "QR de salida no encontrado", None))
    else
      var q :| q in c;
      Guardas(s, q, entrada, estado, now, nuevoToken)
  }

  /** The checks on the QR found: its reservation link, the reservation's state. */
  ghost function Guardas(s: State, q: nat, entrada: bool, estado: EstadoReserva, now: Time, nuevoToken: string): Registro
    requires q in s.qrs
  {
    var reserva := s.qrs[q].reserva;
    if reserva.None? || reserva.value !in s.reservas then
      Registro(s, Respuesta(false, "Reserva no encontrada para este QR", None))
    else if s.reservas[reserva.value].estado != estado then
      Registro(s, Respuesta(false, if entrada then "La reserva no está en estado RESERVADO" else "La reserva no está en estado ACTIVO", None))
    else
      Invocar(s, reserva, entrada, now, nuevoToken)
  }

  /** The service call once the guards passed, its exception reported. */
  ghost function Invocar(s: State, reserva: Option<nat>, entrada: bool, now: Time, nuevoToken: string): Registro
  {
    var st := if entrada then EscaneoQrService.RegistrarEntrada(s, reserva, now, nuevoToken)
              else EscaneoQrService.RegistrarSalida(s, reserva, now);
    match st.result
    case Err(e) =>
      Registro(st.state, Respuesta(false, (if entrada then "Error al registrar entrada: " else "Error al registrar salida: ") + Mensaje(e), None))
    case Ok(_) =>
      Registro(st.state, Respuesta(true, if entrada then "Entrada registrada exitosamente" else "Salida registrada exitosamente",
                                   InfoDe(s, reserva, false)))
  }

  /** POST /registrar-entrada: `nuevoToken` is the UUID the service draws. */
  ghost function RegistrarEntrada(s: State, token: string, now: Time, nuevoToken: string): Registro
  {
    Registrar(s, token, "ENTRADA", EstadoReserva.RESERVADO, now, nuevoToken)
  }

  /** POST /registrar-salida. */
  ghost function RegistrarSalida(s: State, token: string, now: Time): Registro
  {
    Registrar(s, token, "SALIDA", EstadoReserva.ACTIVO, now, "")
  }

  /** The QR behind a token of a given kind, linked to a stored reservation in
      the given state. */
  ghost predicate Admisible(s: State, q: nat, token: string, tipoQr: string, estado: EstadoReserva)
  {
    && q in s.qrs && s.qrs[q].token == token && s.qrs[q].tipo == tipoQr
    && s.qrs[q].reserva.Some? && s.qrs[q].reserva.value in s.reservas
    && s.reservas[s.qrs[q].reserva.value].estado == estado
  }

  /** An entry registration succeeds exactly when the token belongs to an
      ENTRADA QR whose reservation is RESERVADO (the service is then never the
      one to refuse); a refusal changes nothing. */
  lemma RegistrarEntradaSii(s: State, token: string, now: Time, nuevoToken: string)
    requires Valid(s)
    ensures var r := RegistrarEntrada(s, token, now, nuevoToken);
      && (r.respuesta.exito <==> exists q :: Admisible(s, q, token, "ENTRADA", EstadoReserva.RESERVADO))
      && (!r.respuesta.exito ==> r.state == s)
  {
    var c := QrsConTokenYTipo(s.qrs, token, "ENTRADA");
    forall k | Admisible(s, k, token, "ENTRADA", EstadoReserva.RESERVADO) ensures k in c {}
    if c != {} {
      var q :| q in c;
      forall k | k in c ensures k == q {}
      assert RegistrarEntrada(s, token, now, nuevoToken) == Guardas(s, q, true, EstadoReserva.RESERVADO, now, nuevoToken);
      if Admisible(s, q, token, "ENTRADA", EstadoReserva.RESERVADO) {
        EscaneoQrService.EntradaDe(s, s.qrs[q].reserva.value, q, now, nuevoToken);
      }
    }
  }

  /** An admitted entry registration is the service's entry scan of the QR's
      reservation, answered with the reservation's details. */
  lemma RegistrarEntradaAdmitida(s: State, q: nat, token: string, now: Time, nuevoToken: string)
    requires Valid(s) && Admisible(s, q, token, "ENTRADA", EstadoReserva.RESERVADO)
    ensures RegistrarEntrada(s, token, now, nuevoToken) ==
      Registro(EscaneoQrService.ConEntrada(s, s.qrs[q].reserva.value, q, now, nuevoToken),
               Respuesta(true, "Entrada registrada exitosamente", InfoDe(s, s.qrs[q].reserva, false)))
  {
    var c := QrsConTokenYTipo(s.qrs, token, "ENTRADA");
    assert q in c;
    forall k | k in c ensures k == q {}
    assert RegistrarEntrada(s, token, now, nuevoToken) == Guardas(s, q, true, EstadoReserva.RESERVADO, now, nuevoToken);
    EscaneoQrService.EntradaDe(s, s.qrs[q].reserva.value, q, now, nuevoToken);
  }

  /** An exit registration succeeds exactly when the token belongs to a SALIDA
      QR whose reservation is ACTIVO; a refusal changes nothing. */
  lemma RegistrarSalidaSii(s: State, token: string, now: Time)
    requires Valid(s)
    ensures var r := RegistrarSalida(s, token, now);
      && (r.respuesta.exito <==> exists q :: Admisible(s, q, token, "SALIDA", EstadoReserva.ACTIVO))
      && (!r.respuesta.exito ==> r.state == s)
  {
    var c := QrsConTokenYTipo(s.qrs, token, "SALIDA");
    forall k | Admisible(s, k, token, "SALIDA", EstadoReserva.ACTIVO) ensures k in c {}
    if c != {} {
      var q :| q in c;
      forall k | k in c ensures k == q {}
      assert RegistrarSalida(s, token, now) == Guardas(s, q, false, EstadoReserva.ACTIVO, now, "");
      if Admisible(s, q, token, "SALIDA", EstadoReserva.ACTIVO) {
        EscaneoQrService.SalidaDe(s, s.qrs[q].reserva.value, q, now);
      }
    }
  }

  /** An admitted exit registration is the service's exit scan of the QR's reservation. */
  lemma RegistrarSalidaAdmitida(s: State, q: nat, token: string, now: Time)
    requires Valid(s) && Admisible(s, q, token, "SALIDA", EstadoReserva.ACTIVO)
    ensures RegistrarSalida(s, token, now) ==
      Registro(EscaneoQrService.ConSalida(s, s.qrs[q].reserva.value, q, now),
               Respuesta(true, "Salida registrada exitosamente", InfoDe(s, s.qrs[q].reserva, false)))
  {
    var c := QrsConTokenYTipo(s.qrs, token, "SALIDA");
    assert q in c;
    forall k | k in c ensures k == q {}
    assert RegistrarSalida(s, token, now) == Guardas(s, q, false, EstadoReserva.ACTIVO, now, "");
    EscaneoQrService.SalidaDe(s, s.qrs[q].reserva.value, q, now);
  }

  /** A ticket cannot be replayed at the entry: once an entry registration
      succeeded, the same token finds no ENTRADA QR any more. */
  lemma EntradaNoSeRepite(s: State, token: string, t1: Time, nuevoToken: string, t2: Time, otroToken: string)
    requires Valid(s) && nuevoToken !in Tokens(s.qrs)
    requires RegistrarEntrada(s, token, t1, nuevoToken).respuesta.exito
    ensures var t := RegistrarEntrada(s, token, t1, nuevoToken).state;
      RegistrarEntrada(t, token, t2, otroToken) == Registro(t, Respuesta(false, "QR de entrada no encontrado", None))
  {
    RegistrarEntradaSii(s, token, t1, nuevoToken);
    var q :| Admisible(s, q, token, "ENTRADA", EstadoReserva.RESERVADO);
    RegistrarEntradaAdmitida(s, q, token, t1, nuevoToken);
    var t := EscaneoQrService.ConEntrada(s, s.qrs[q].reserva.value, q, t1, nuevoToken);
    assert s.qrs[q].token in Tokens(s.qrs);
    forall k | k in t.qrs ensures t.qrs[k].token != token || t.qrs[k].tipo != "ENTRADA" {}
    assert QrsConTokenYTipo(t.qrs, token, "ENTRADA") == {};
  }

  /** Through the gate: the token of an ENTRADA QR of a RESERVADO reservation
      registers the entry, the token the entry hands out registers the exit,
      and the reservation ends FINALIZADO with its QR SALIDA_USADA. */
  lemma EntradaYSalidaRegistradas(s: State, q: nat, token: string, t1: Time, nuevoToken: string, t2: Time)
    requires Valid(s) && nuevoToken !in Tokens(s.qrs)
    requires Admisible(s, q, token, "ENTRADA", EstadoReserva.RESERVADO)
    ensures var e := RegistrarEntrada(s, token, t1, nuevoToken);
      var x := RegistrarSalida(e.state, nuevoToken, t2);
      var id := s.qrs[q].reserva.value;
      && e.respuesta.exito && x.respuesta.exito
      && id in x.state.reservas && q in x.state.qrs
      && x.state.reservas[id].estado == EstadoReserva.FINALIZADO
      && x.state.qrs[q].tipo == "SALIDA_USADA"
      && x.state.qrs[q].timestampEnt == Some(t1) && x.state.qrs[q].timestampSal == Some(t2)
  {
    var id := s.qrs[q].reserva.value;
    RegistrarEntradaAdmitida(s, q, token, t1, nuevoToken);
    EscaneoQrService.EntradaDe(s, id, q, t1, nuevoToken);
    EscaneoQrService.EntradaPreservaValido(s, Some(id), t1, nuevoToken);
    var t := EscaneoQrService.ConEntrada(s, id, q, t1, nuevoToken);
    assert Admisible(t, q, nuevoToken, "SALIDA", EstadoReserva.ACTIVO);
    RegistrarSalidaAdmitida(t, q, nuevoToken, t2);
  }

  /** Both registrations on the database. */
  method RegistrarEnBd(db: Store.Db, token: string, tipoQr: string, estado: EstadoReserva, now: Time, nuevoToken: string)
    returns (r: Respuesta)
    requires db.Valid()
    modifies db`qrs, db`reservas, db`espacios
    ensures r == Registrar(old(db.Snapshot()), token, tipoQr, estado, now, nuevoToken).respuesta
    ensures db.Snapshot() == Registrar(old(db.Snapshot()), token, tipoQr, estado, now, nuevoToken).state
  {
    var entrada := tipoQr == "ENTRADA";
    var c := QrsConTokenYTipo(db.qrs, token, tipoQr);
    if c == {} {
      return Respuesta(false, if entrada then "QR de entrada no encontrado" else "QR de salida no encontrado", None);
    }
    var q :| q in c;
    forall k | k in c ensures k == q {}
    assert Registrar(db.Snapshot(), token, tipoQr, estado, now, nuevoToken) == Guardas(db.Snapshot(), q, entrada, estado, now, nuevoToken);
    var reserva := db.qrs[q].reserva;
    if reserva.None? || reserva.value !in db.reservas {
      return Respuesta(false, "Reserva no encontrada para este QR", None);
    }
    if db.reservas[reserva.value].estado != estado {
      return Respuesta(false, if entrada then "La reserva no está en estado RESERVADO" else "La reserva no está en estado ACTIVO", None);
    }
    r := InvocarEnBd(db, reserva, entrada, now, nuevoToken);
  }

  /** The service call of a registration on the database. */
  method InvocarEnBd(db: Store.Db, reserva: Option<nat>, entrada: bool, now: Time, nuevoToken: string) returns (r: Respuesta)
    requires db.Valid()
    modifies db`qrs, db`reservas, db`espacios
    ensures r == Invocar(old(db.Snapshot()), reserva, entrada, now, nuevoToken).respuesta
    ensures db.Snapshot() == Invocar(old(db.Snapshot()), reserva, entrada, now, nuevoToken).state
  {
    var info := InfoDe(db.Snapshot(), reserva, false);
    var res;
    if entrada {
      res := EscaneoQrService.RegistrarEntradaEnBd(db, reserva, now, nuevoToken);
    } else {
      res := EscaneoQrService.RegistrarSalidaEnBd(db, reserva, now);
    }
    match res
    case Err(e) =>
      r := Respuesta(false, (if entrada then "Error al registrar entrada: " else "Error al registrar salida: ") + Mensaje(e), None);
    case Ok(_) =>
      r := Respuesta(true, if entrada then "Entrada registrada exitosamente" else "Salida registrada exitosamente", info);
  }
}
