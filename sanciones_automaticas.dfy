/** The sanction job of ReservaServiceImpl (aplicarSancionesAutomaticas): every
    EXPIRADO reservation whose user has no sanction mentioning it gets an
    automatic sanction through crearConRegistrador. The job is not
    transactional: each sanction is saved as it is made. */
module SancionesAutomaticas {
  import opened Common
  import opened Entities
  import SancionService
  import Store

  /** The rule id the job puts on every automatic sanction. */
  const REGLA_POR_DEFECTO: nat := 1

  /** The text by which the job recognises a sanction for reservation `id`. */
  function Marca(id: nat): string
  {
    "Reserva #" + NatToString(id)
  }

  /** The reason the job writes for reservation `id` held on space `numeroEspacio`. */
  function MotivoAutomatico(id: nat, numeroEspacio: string): string
  {
    "Exceder tiempo de reserva - " + Marca(id) + " expirada sin registrar salida. Espacio: " + numeroEspacio
  }

  /** yaTieneSancion: some sanction of the user has a reason containing the mark. */
  predicate YaSancionada(sanciones: map<nat, Sancion>, usuarioId: nat, id: nat)
  {
    exists k :: k in sanciones && sanciones[k].usuarioId == usuarioId && Contains(sanciones[k].motivo, Marca(id))
  }

  /** The SancionDto the job builds for reservation `id`; `ahora` is the
      instant the job reads once, before its loop, as the registration date. */
  function DtoAutomatico(r: Reserva, id: nat, numeroEspacio: string, ahora: Time): SancionService.SancionDto
  {
    SancionService.SancionDto(Some(r.usuarioId), Some(r.vehiculoId), Some(MotivoAutomatico(id, numeroEspacio)),
      Some(EstadoSancion.ACTIVA), Some(ahora), None, None, Some(REGLA_POR_DEFECTO), None, None, None)
  }

  /** The clock readings of one crearConRegistrador call: `now` for its
      suspension check and the start of a new suspension, `now2` for its
      closing status update. Every call of the job reads the clock afresh. */
  datatype Reloj = Reloj(now: Time, now2: Time)

  /** The job's work on one reservation. Reading the user's id outside the try
      block throws for a reservation without a user, which ends the job (None).
      A missing vehicle or space throws inside the try block, as does any
      refusal of crearConRegistrador; those are swallowed and nothing is saved.
      `mes` is plusMonths(1). */
  function PasoSancion(s: State, id: nat, ahora: Time, reloj: Reloj, mes: Duration): Option<State>
    requires id in s.reservas
  {
    var r := s.reservas[id];
    if r.usuarioId !in s.usuarios then None
    else if YaSancionada(s.sanciones, r.usuarioId, id) then Some(s)
    else if r.vehiculoId !in s.vehiculos || r.espacioId !in s.espacios then Some(s)
    else
      var dto := DtoAutomatico(r, id, s.espacios[r.espacioId].numeroEspacio, ahora);
      Some(SancionService.CrearConRegistrador(s, dto, None, reloj.now, reloj.now2, mes).state)
  }

  /** The step for `id` reaches crearConRegistrador and crearConRegistrador
      accepts: the user exists, no sanction of the user carries the mark, the
      vehicle and the space exist, and the checks pass at the step's clock. */
  predicate Sancionable(s: State, id: nat, ahora: Time, reloj: Reloj)
    requires id in s.reservas
  {
    var r := s.reservas[id];
    && r.usuarioId in s.usuarios && !YaSancionada(s.sanciones, r.usuarioId, id)
    && r.vehiculoId in s.vehiculos && r.espacioId in s.espacios
    && SancionService.ErrorAlCrear(s, DtoAutomatico(r, id, s.espacios[r.espacioId].numeroEspacio, ahora), reloj.now).None?
  }

  /** The whole job over `expiradas`, the reservations the EXPIRADO query
      returned, in its order; `relojes[i]` are the readings of the call made
      for `expiradas[i]`. */
  function AplicarSanciones(s: State, expiradas: seq<nat>, ahora: Time, relojes: seq<Reloj>, mes: Duration): Step<()>
    requires |relojes| == |expiradas|
    decreases |expiradas|
  {
    if expiradas == [] then Step(s, Ok(()))
    else if expiradas[0] !in s.reservas then AplicarSanciones(s, expiradas[1..], ahora, relojes[1..], mes)
    else match PasoSancion(s, expiradas[0], ahora, relojes[0], mes)
      case None => Step(s, Err(NullPointer))
      case Some(t) => AplicarSanciones(t, expiradas[1..], ahora, relojes[1..], mes)
  }

  /** What findByEstadoWithRelations(EXPIRADO) returns: every EXPIRADO
      reservation, each once. */
  predicate ListadoExpiradas(reservas: map<nat, Reserva>, expiradas: seq<nat>)
  {
    && (forall i :: 0 <= i < |expiradas| ==> expiradas[i] in reservas && reservas[expiradas[i]].estado == EstadoReserva.EXPIRADO)
    && (forall id :: id in reservas && reservas[id].estado == EstadoReserva.EXPIRADO ==> id in expiradas)
    && (forall i, j :: 0 <= i < j < |expiradas| ==> expiradas[i] != expiradas[j])
  }

  // ------------------------------------------------------------- one step

  /** The reason the job writes carries the reservation's mark. */
  lemma MotivoLlevaMarca(id: nat, numeroEspacio: string)
    ensures Contains(MotivoAutomatico(id, numeroEspacio), Marca(id))
  {
    ContainsMiddle("Exceder tiempo de reserva - ", Marca(id), " expirada sin registrar salida. Espacio: " + numeroEspacio);
    assert "Exceder tiempo de reserva - " + Marca(id) + (" expirada sin registrar salida. Espacio: " + numeroEspacio)
      == MotivoAutomatico(id, numeroEspacio);
  }

  /** One step either changes nothing or stores exactly one new sanction, under
      the next id, and it stores one exactly when the reservation is
      Sancionable: the new sanction is for the reservation's user and vehicle,
      ACTIVA, with no author, with the reason that carries the reservation's
      mark, and any suspension in it starts at the step's clock reading. The
      step never touches reservations, spaces, QRs, rules or details, nor adds
      or removes a user or a vehicle. */
  lemma PasoSancionCrea(s: State, id: nat, ahora: Time, reloj: Reloj, mes: Duration)
    requires id in s.reservas
    requires PasoSancion(s, id, ahora, reloj, mes).Some?
    ensures var t := PasoSancion(s, id, ahora, reloj, mes).value;
      var r := s.reservas[id];
      && t.reservas == s.reservas && t.espacios == s.espacios && t.qrs == s.qrs
      && t.detalles == s.detalles && t.reglas == s.reglas
      && t.usuarios.Keys == s.usuarios.Keys && t.vehiculos.Keys == s.vehiculos.Keys
      && r.usuarioId in s.usuarios
      && (!Sancionable(s, id, ahora, reloj) ==> t == s)
      && (Sancionable(s, id, ahora, reloj) ==>
           var x := t.sanciones[s.nextId];
           && s.nextId in t.sanciones
           && t.nextId == s.nextId + 1
           && t.sanciones == s.sanciones[s.nextId := x]
           && x.usuarioId == r.usuarioId && x.vehiculoId == r.vehiculoId
           && x.motivo == MotivoAutomatico(id, s.espacios[r.espacioId].numeroEspacio)
           && x.estado == EstadoSancion.ACTIVA
           && x.registradaPor.None?
           && (x.fechaInicioSuspension.Some? <==> x.fechaFinSuspension.Some?)
           && (x.fechaFinSuspension.Some? ==>
                 x.fechaInicioSuspension == Some(reloj.now) && SancionService.EsSuspension(x.tipoCastigo))
           && YaSancionada(t.sanciones, r.usuarioId, id))
  {
    var r := s.reservas[id];
    if Sancionable(s, id, ahora, reloj) {
      var dto := DtoAutomatico(r, id, s.espacios[r.espacioId].numeroEspacio, ahora);
      var s1 := SancionService.ConNuevaSancion(s, dto, None, reloj.now, mes);
      var tipo := s.reglas[REGLA_POR_DEFECTO].tipoFalta;
      SancionService.VentanaSiiSuspension(tipo, SancionService.Reincidencias(s, r.usuarioId, tipo), reloj.now, mes);
      SancionService.EstadoUsuarioCorrecto(s1, r.usuarioId, reloj.now2);
      MotivoLlevaMarca(id, s.espacios[r.espacioId].numeroEspacio);
      assert s.nextId in s1.sanciones;
    }
  }

  /** A reservation already mentioned by a sanction of its user is skipped. */
  lemma YaSancionadaSeSalta(s: State, id: nat, ahora: Time, reloj: Reloj, mes: Duration)
    requires id in s.reservas && s.reservas[id].usuarioId in s.usuarios
    requires YaSancionada(s.sanciones, s.reservas[id].usuarioId, id)
    ensures PasoSancion(s, id, ahora, reloj, mes) == Some(s)
  {
  }

  /** Running the step for the same reservation again, with the same clock
      readings, changes nothing more. */
  lemma PasoSancionIdempotente(s: State, id: nat, ahora: Time, reloj: Reloj, mes: Duration)
    requires id in s.reservas
    requires PasoSancion(s, id, ahora, reloj, mes).Some?
    ensures var t := PasoSancion(s, id, ahora, reloj, mes).value;
      id in t.reservas && PasoSancion(t, id, ahora, reloj, mes) == Some(t)
  {
    PasoSancionCrea(s, id, ahora, reloj, mes);
  }

  /** Storing, under the next id, a sanction that no detail points at leaves
      every count of previous offences as it was. */
  lemma AnadirSinDetalleNoReincide(s: State, t: State, u: nat, tipo: TipoFalta)
    requires Valid(s)
    requires s.nextId in t.sanciones && t.sanciones == s.sanciones[s.nextId := t.sanciones[s.nextId]]
    requires t.detalles == s.detalles && t.reglas == s.reglas
    ensures SancionService.Reincidencias(t, u, tipo) == SancionService.Reincidencias(s, u, tipo)
  {
    var s1 := s.(sanciones := t.sanciones);
    SancionService.ReincidenciasSinDetalle(s, s.nextId, t.sanciones[s.nextId], u, tipo);
    assert s.nextId !in SancionService.SancionesReincidentes(s, u, tipo);
    assert SancionService.SancionesReincidentes(t, u, tipo) == SancionService.SancionesReincidentes(s1, u, tipo);
  }

  /** An automatic sanction gets no SancionDetalle, so it never counts as a
      previous offence: after a step every user's count of every fault kind is
      what it was. */
  lemma PasoSancionNoReincide(s: State, id: nat, ahora: Time, reloj: Reloj, mes: Duration, u: nat, tipo: TipoFalta)
    requires Valid(s) && id in s.reservas
    requires PasoSancion(s, id, ahora, reloj, mes).Some?
    ensures SancionService.Reincidencias(PasoSancion(s, id, ahora, reloj, mes).value, u, tipo) == SancionService.Reincidencias(s, u, tipo)
  {
    var t := PasoSancion(s, id, ahora, reloj, mes).value;
    PasoSancionCrea(s, id, ahora, reloj, mes);
    if t != s {
      AnadirSinDetalleNoReincide(s, t, u, tipo);
    }
  }

  /** The mark is a plain substring test, so the reason written for
      reservation 12 carries the mark of reservation 1. */
  lemma MarcaDeUnoEnDoce(numeroEspacio: string)
    ensures Contains(MotivoAutomatico(12, numeroEspacio), Marca(1))
  {
    var a := "Exceder tiempo de reserva - ";
    var b := " expirada sin registrar salida. Espacio: " + numeroEspacio;
    var p := Marca(1);
    var q := [DigitChar(2)];
    assert NatToString(12) == NatToString(1) + q;
    assert Marca(12) == p + q;
    ContainsMiddle(a, p, q + b);
    assert a + p + (q + b) == a + (p + q) + b;
    assert MotivoAutomatico(12, numeroEspacio) == a + Marca(12) + b;
  }

  /** Hence reservation 1 is taken as already sanctioned, and skipped, as soon
      as its user holds the sanction written for reservation 12. */
  lemma UnoSaltadaPorDoce(s: State, k: nat, numeroEspacio: string, ahora: Time, reloj: Reloj, mes: Duration)
    requires 1 in s.reservas && s.reservas[1].usuarioId in s.usuarios
    requires k in s.sanciones && s.sanciones[k].usuarioId == s.reservas[1].usuarioId
    requires s.sanciones[k].motivo == MotivoAutomatico(12, numeroEspacio)
    ensures PasoSancion(s, 1, ahora, reloj, mes) == Some(s)
  {
    MarcaDeUnoEnDoce(numeroEspacio);
    YaSancionadaSeSalta(s, 1, ahora, reloj, mes);
  }

  // ----------------------------------------------------------- the whole job

  /** From `s` to `t` only sanctions were added: reservations, spaces, QRs,
      rules and details are as they were, no user or vehicle appeared or
      disappeared, every sanction of `s` is kept unchanged, and each new one is
      an author-less sanction whose reason carries the mark of a reservation of
      `ids` held by the sanctioned user. */
  ghost predicate SoloAnade(s: State, t: State, ids: set<nat>)
  {
    && t.reservas == s.reservas && t.espacios == s.espacios && t.qrs == s.qrs && t.detalles == s.detalles
    && t.reglas == s.reglas && t.usuarios.Keys == s.usuarios.Keys && t.vehiculos.Keys == s.vehiculos.Keys
    && (forall k :: k in s.sanciones ==> k in t.sanciones && t.sanciones[k] == s.sanciones[k])
    && (forall k :: k in t.sanciones && k !in s.sanciones ==> NuevaPorMarca(s, t.sanciones[k], ids))
  }

  /** `x` is an author-less sanction of the user of some reservation of `ids`,
      whose reason carries that reservation's mark. */
  ghost predicate NuevaPorMarca(s: State, x: Sancion, ids: set<nat>)
  {
    x.registradaPor.None? &&
    exists id :: id in ids && id in s.reservas && x.usuarioId == s.reservas[id].usuarioId && Contains(x.motivo, Marca(id))
  }

  /** The listed reservations that no sanction of their user marks in `s`. */
  ghost function SinMarca(s: State, expiradas: seq<nat>): set<nat>
  {
    set id | id in expiradas && id in s.reservas && !YaSancionada(s.sanciones, s.reservas[id].usuarioId, id)
  }

  lemma SoloAnadeCompone(s: State, u: State, t: State, a: set<nat>, b: set<nat>)
    requires SoloAnade(s, u, a) && SoloAnade(u, t, b)
    ensures SoloAnade(s, t, a + b)
  {
    forall k | k in t.sanciones && k !in s.sanciones
      ensures NuevaPorMarca(s, t.sanciones[k], a + b)
    {
      if k in u.sanciones {
        var id :| id in a && id in s.reservas && u.sanciones[k].usuarioId == s.reservas[id].usuarioId && Contains(u.sanciones[k].motivo, Marca(id));
        assert id in a + b;
      } else {
        var id :| id in b && id in u.reservas && t.sanciones[k].usuarioId == u.reservas[id].usuarioId && Contains(t.sanciones[k].motivo, Marca(id));
        assert id in a + b;
      }
    }
  }

  lemma SoloAnadeMayor(s: State, t: State, a: set<nat>, b: set<nat>)
    requires SoloAnade(s, t, a) && a <= b
    ensures SoloAnade(s, t, b)
  {
    forall k | k in t.sanciones && k !in s.sanciones
      ensures NuevaPorMarca(s, t.sanciones[k], b)
    {
      var id :| id in a && id in s.reservas && t.sanciones[k].usuarioId == s.reservas[id].usuarioId && Contains(t.sanciones[k].motivo, Marca(id));
    }
  }

  /** Marks are never lost while sanctions are only added. */
  lemma MarcaPersiste(s: State, t: State, ids: set<nat>, u: nat, id: nat)
    requires SoloAnade(s, t, ids) && YaSancionada(s.sanciones, u, id)
    ensures YaSancionada(t.sanciones, u, id)
  {
    var k :| k in s.sanciones && s.sanciones[k].usuarioId == u && Contains(s.sanciones[k].motivo, Marca(id));
    assert k in t.sanciones && t.sanciones[k] == s.sanciones[k];
  }

  /** Nor is a suspension in effect at a given instant. */
  lemma SuspensionPersiste(s: State, t: State, ids: set<nat>, u: nat, now: Time)
    requires SoloAnade(s, t, ids) && SancionService.Suspendido(s.sanciones, u, now)
    ensures SancionService.Suspendido(t.sanciones, u, now)
  {
    var k :| k in s.sanciones && s.sanciones[k].usuarioId == u && SancionService.SuspensionEfectiva(s.sanciones[k], now);
    assert k in t.sanciones && t.sanciones[k] == s.sanciones[k];
  }

  /** So a refusal of crearConRegistrador is repeated on any state that only
      has more sanctions. */
  lemma ErrorAlCrearPersiste(s: State, t: State, ids: set<nat>, dto: SancionService.SancionDto, now: Time)
    requires SoloAnade(s, t, ids) && SancionService.ErrorAlCrear(s, dto, now).Some?
    ensures SancionService.ErrorAlCrear(t, dto, now).Some?
  {
    if dto.usuarioId.Some? && SancionService.Suspendido(s.sanciones, dto.usuarioId.value, now) {
      SuspensionPersiste(s, t, ids, dto.usuarioId.value, now);
    }
  }

  /** Marks only appear, so fewer listed reservations lack one. */
  lemma SinMarcaDecrece(s: State, t: State, ids: set<nat>, expiradas: seq<nat>)
    requires SoloAnade(s, t, ids)
    ensures SinMarca(t, expiradas) <= SinMarca(s, expiradas)
  {
    forall id | id in SinMarca(t, expiradas)
      ensures id in SinMarca(s, expiradas)
    {
      if YaSancionada(s.sanciones, s.reservas[id].usuarioId, id) {
        MarcaPersiste(s, t, ids, s.reservas[id].usuarioId, id);
      }
    }
  }

  lemma SinMarcaParte(s: State, expiradas: seq<nat>)
    requires expiradas != []
    ensures SinMarca(s, expiradas) == SinMarca(s, [expiradas[0]]) + SinMarca(s, expiradas[1..])
  {
    assert expiradas == [expiradas[0]] + expiradas[1..];
  }

  lemma UnaNuevaSoloAnade(s: State, t: State, id: nat)
    requires t.reservas == s.reservas && t.espacios == s.espacios && t.qrs == s.qrs && t.detalles == s.detalles
    requires t.reglas == s.reglas && t.usuarios.Keys == s.usuarios.Keys && t.vehiculos.Keys == s.vehiculos.Keys
    requires s.nextId !in s.sanciones && s.nextId in t.sanciones
    requires t.sanciones == s.sanciones[s.nextId := t.sanciones[s.nextId]]
    requires NuevaPorMarca(s, t.sanciones[s.nextId], {id})
    ensures SoloAnade(s, t, {id})
  {
  }

  /** Storing one new sanction, with the mark of reservation `id` that had
      none, only adds the sanction of that reservation. */
  lemma UnaMarcadaSoloAnade(s: State, t: State, id: nat)
    requires Valid(s) && id in s.reservas
    requires t.reservas == s.reservas && t.espacios == s.espacios && t.qrs == s.qrs && t.detalles == s.detalles
    requires t.reglas == s.reglas && t.usuarios.Keys == s.usuarios.Keys && t.vehiculos.Keys == s.vehiculos.Keys
    requires s.nextId in t.sanciones && t.sanciones == s.sanciones[s.nextId := t.sanciones[s.nextId]]
    requires !YaSancionada(s.sanciones, s.reservas[id].usuarioId, id)
    requires t.sanciones[s.nextId].registradaPor.None? && t.sanciones[s.nextId].usuarioId == s.reservas[id].usuarioId
    requires Contains(t.sanciones[s.nextId].motivo, Marca(id))
    ensures SoloAnade(s, t, SinMarca(s, [id]))
  {
    assert NuevaPorMarca(s, t.sanciones[s.nextId], {id});
    UnaNuevaSoloAnade(s, t, id);
    assert id in SinMarca(s, [id]);
    SoloAnadeMayor(s, t, {id}, SinMarca(s, [id]));
  }

  /** One step only adds, if anything, the sanction of its reservation, and
      only when that reservation had no mark. */
  lemma PasoSancionSoloAnade(s: State, id: nat, ahora: Time, reloj: Reloj, mes: Duration)
    requires Valid(s) && id in s.reservas
    requires PasoSancion(s, id, ahora, reloj, mes).Some?
    ensures SoloAnade(s, PasoSancion(s, id, ahora, reloj, mes).value, SinMarca(s, [id]))
  {
    var t := PasoSancion(s, id, ahora, reloj, mes).value;
    PasoSancionCrea(s, id, ahora, reloj, mes);
    if Sancionable(s, id, ahora, reloj) {
      MotivoLlevaMarca(id, s.espacios[s.reservas[id].espacioId].numeroEspacio);
      UnaMarcadaSoloAnade(s, t, id);
    }
  }

  /** Adding a sanction under the next id keeps the database well formed. */
  lemma ValidoTrasAnadir(s: State, t: State)
    requires Valid(s)
    requires t.qrs == s.qrs && t.reservas == s.reservas && t.detalles == s.detalles && t.nextId == s.nextId + 1
    requires t.sanciones.Keys <= s.sanciones.Keys + {s.nextId}
    ensures Valid(t)
  {
  }

  /** One step keeps the database well formed. */
  lemma PasoSancionValido(s: State, id: nat, ahora: Time, reloj: Reloj, mes: Duration)
    requires Valid(s) && id in s.reservas
    requires PasoSancion(s, id, ahora, reloj, mes).Some?
    ensures Valid(PasoSancion(s, id, ahora, reloj, mes).value)
  {
    var t := PasoSancion(s, id, ahora, reloj, mes).value;
    PasoSancionCrea(s, id, ahora, reloj, mes);
    if t != s {
      ValidoTrasAnadir(s, t);
    }
  }

  /** The job keeps the database well formed and only adds sanctions, each for
      a listed reservation that had no mark when the job started. */
  lemma {:induction false} AplicarSoloAnade(s: State, expiradas: seq<nat>, ahora: Time, relojes: seq<Reloj>, mes: Duration)
    requires Valid(s) && |relojes| == |expiradas|
    ensures var t := AplicarSanciones(s, expiradas, ahora, relojes, mes).state;
      Valid(t) && SoloAnade(s, t, SinMarca(s, expiradas))
    decreases |expiradas|
  {
    if expiradas != [] {
      var id := expiradas[0];
      var resto := expiradas[1..];
      SinMarcaParte(s, expiradas);
      if id !in s.reservas {
        AplicarSoloAnade(s, resto, ahora, relojes[1..], mes);
        SoloAnadeMayor(s, AplicarSanciones(s, expiradas, ahora, relojes, mes).state, SinMarca(s, resto), SinMarca(s, expiradas));
      } else if PasoSancion(s, id, ahora, relojes[0], mes).Some? {
        var u := PasoSancion(s, id, ahora, relojes[0], mes).value;
        var t := AplicarSanciones(u, resto, ahora, relojes[1..], mes).state;
        PasoSancionSoloAnade(s, id, ahora, relojes[0], mes);
        PasoSancionValido(s, id, ahora, relojes[0], mes);
        AplicarSoloAnade(u, resto, ahora, relojes[1..], mes);
        SinMarcaDecrece(s, u, SinMarca(s, [id]), resto);
        SoloAnadeMayor(u, t, SinMarca(u, resto), SinMarca(s, resto));
        SoloAnadeCompone(s, u, t, SinMarca(s, [id]), SinMarca(s, resto));
      }
    }
  }

  /** At most one sanction per listed reservation: the new sanctions are
      exactly those under the ids from the old next id up to the new one, and
      the next id grows by at most the length of the listing. */
  lemma {:induction false} AplicarAlMasUnaPorReserva(s: State, expiradas: seq<nat>, ahora: Time, relojes: seq<Reloj>, mes: Duration)
    requires |relojes| == |expiradas|
    ensures var t := AplicarSanciones(s, expiradas, ahora, relojes, mes).state;
      && s.nextId <= t.nextId <= s.nextId + |expiradas|
      && (forall k :: k in t.sanciones <==> k in s.sanciones || s.nextId <= k < t.nextId)
    decreases |expiradas|
  {
    if expiradas != [] {
      var id := expiradas[0];
      if id !in s.reservas {
        AplicarAlMasUnaPorReserva(s, expiradas[1..], ahora, relojes[1..], mes);
      } else if PasoSancion(s, id, ahora, relojes[0], mes).Some? {
        var u := PasoSancion(s, id, ahora, relojes[0], mes).value;
        PasoSancionSiguiente(s, id, ahora, relojes[0], mes);
        AplicarAlMasUnaPorReserva(u, expiradas[1..], ahora, relojes[1..], mes);
      }
    }
  }

  /** One step adds at most the sanction under the next id. */
  lemma PasoSancionSiguiente(s: State, id: nat, ahora: Time, reloj: Reloj, mes: Duration)
    requires id in s.reservas
    requires PasoSancion(s, id, ahora, reloj, mes).Some?
    ensures var u := PasoSancion(s, id, ahora, reloj, mes).value;
      && s.nextId <= u.nextId <= s.nextId + 1
      && (forall k :: k in u.sanciones <==> k in s.sanciones || s.nextId <= k < u.nextId)
  {
    var u := PasoSancion(s, id, ahora, reloj, mes).value;
    PasoSancionCrea(s, id, ahora, reloj, mes);
    if u != s {
      SiguienteTrasAnadir(s, u);
    }
  }

  lemma SiguienteTrasAnadir(s: State, u: State)
    requires s.nextId in u.sanciones && u.sanciones == s.sanciones[s.nextId := u.sanciones[s.nextId]]
    requires u.nextId == s.nextId + 1
    ensures forall k :: k in u.sanciones <==> k in s.sanciones || s.nextId <= k < u.nextId
  {
  }

  /** The step for `id` on a state `t` that only added sanctions to the states
      before and after the same step of an earlier run saves nothing. */
  lemma PasoRepetido(s: State, u: State, t: State, a: set<nat>, b: set<nat>, id: nat, ahora: Time, reloj: Reloj, mes: Duration)
    requires id in s.reservas && PasoSancion(s, id, ahora, reloj, mes) == Some(u)
    requires SoloAnade(s, t, a) && SoloAnade(u, t, b)
    ensures PasoSancion(t, id, ahora, reloj, mes) == Some(t)
  {
    PasoSancionCrea(s, id, ahora, reloj, mes);
    var r := s.reservas[id];
    if Sancionable(s, id, ahora, reloj) {
      MarcaPersiste(u, t, b, r.usuarioId, id);
    } else if !YaSancionada(t.sanciones, r.usuarioId, id) {
      if YaSancionada(s.sanciones, r.usuarioId, id) {
        MarcaPersiste(s, t, a, r.usuarioId, id);
      }
      if r.vehiculoId in s.vehiculos && r.espacioId in s.espacios {
        var dto := DtoAutomatico(r, id, s.espacios[r.espacioId].numeroEspacio, ahora);
        ErrorAlCrearPersiste(s, t, a, dto, reloj.now);
      }
    }
  }

  lemma {:induction false} ReejecutarDesde(s: State, t: State, ids: set<nat>, expiradas: seq<nat>, ahora: Time, relojes: seq<Reloj>, mes: Duration)
    requires Valid(s) && |relojes| == |expiradas|
    requires SoloAnade(s, t, ids)
    requires AplicarSanciones(s, expiradas, ahora, relojes, mes).state == t
    requires AplicarSanciones(s, expiradas, ahora, relojes, mes).result.Ok?
    ensures AplicarSanciones(t, expiradas, ahora, relojes, mes) == Step(t, Ok(()))
    decreases |expiradas|
  {
    if expiradas != [] {
      var id := expiradas[0];
      var resto := expiradas[1..];
      if id !in s.reservas {
        ReejecutarDesde(s, t, ids, resto, ahora, relojes[1..], mes);
      } else {
        var u := PasoSancion(s, id, ahora, relojes[0], mes).value;
        PasoSancionValido(s, id, ahora, relojes[0], mes);
        AplicarSoloAnade(u, resto, ahora, relojes[1..], mes);
        PasoRepetido(s, u, t, ids, SinMarca(u, resto), id, ahora, relojes[0], mes);
        ReejecutarDesde(u, t, SinMarca(u, resto), resto, ahora, relojes[1..], mes);
      }
    }
  }

  /** Running the job again on what a successful run left, over the same
      listing and with the same clock readings, changes nothing: every
      reservation sanctioned the first time now carries its mark, and every
      refusal of the first run is repeated. */
  lemma AplicarReejecutar(s: State, expiradas: seq<nat>, ahora: Time, relojes: seq<Reloj>, mes: Duration)
    requires Valid(s) && |relojes| == |expiradas|
    requires AplicarSanciones(s, expiradas, ahora, relojes, mes).result.Ok?
    ensures var t := AplicarSanciones(s, expiradas, ahora, relojes, mes).state;
      AplicarSanciones(t, expiradas, ahora, relojes, mes) == Step(t, Ok(()))
  {
    var t := AplicarSanciones(s, expiradas, ahora, relojes, mes).state;
    AplicarSoloAnade(s, expiradas, ahora, relojes, mes);
    ReejecutarDesde(s, t, SinMarca(s, expiradas), expiradas, ahora, relojes, mes);
  }

  /** A user suspended at every clock reading of the rest of the run gets no
      new sanction from it. */
  lemma {:induction false} AplicarRespetaSuspension(s: State, expiradas: seq<nat>, ahora: Time, relojes: seq<Reloj>, mes: Duration, u: nat)
    requires Valid(s) && |relojes| == |expiradas|
    requires forall i :: 0 <= i < |relojes| ==> SancionService.Suspendido(s.sanciones, u, relojes[i].now)
    ensures var t := AplicarSanciones(s, expiradas, ahora, relojes, mes).state;
      forall k :: k in t.sanciones && k !in s.sanciones ==> t.sanciones[k].usuarioId != u
    decreases |expiradas|
  {
    if expiradas != [] {
      var id := expiradas[0];
      var resto := expiradas[1..];
      if id !in s.reservas {
        AplicarRespetaSuspension(s, resto, ahora, relojes[1..], mes, u);
      } else if PasoSancion(s, id, ahora, relojes[0], mes).Some? {
        var w := PasoSancion(s, id, ahora, relojes[0], mes).value;
        PasoSancionCrea(s, id, ahora, relojes[0], mes);
        PasoSancionSoloAnade(s, id, ahora, relojes[0], mes);
        PasoSancionValido(s, id, ahora, relojes[0], mes);
        forall i | 0 <= i < |relojes[1..]|
          ensures SancionService.Suspendido(w.sanciones, u, relojes[1..][i].now)
        {
          SuspensionPersiste(s, w, SinMarca(s, [id]), u, relojes[i + 1].now);
        }
        AplicarRespetaSuspension(w, resto, ahora, relojes[1..], mes, u);
        AplicarSoloAnade(w, resto, ahora, relojes[1..], mes);
      }
    }
  }

  /** A suspension the first step stores is in effect at every later reading
      before its end; the step adds no other sanction and keeps the database
      well formed. */
  lemma SuspendeTrasPaso(s: State, id: nat, ahora: Time, relojes: seq<Reloj>, mes: Duration, fin: Time)
    requires Valid(s) && id in s.reservas && relojes != []
    requires PasoSancion(s, id, ahora, relojes[0], mes).Some?
    requires var t1 := PasoSancion(s, id, ahora, relojes[0], mes).value;
      s.nextId in t1.sanciones && t1.sanciones[s.nextId].fechaFinSuspension == Some(fin)
    requires forall i :: 1 <= i < |relojes| ==> relojes[0].now < relojes[i].now < fin
    ensures Suspende(s, PasoSancion(s, id, ahora, relojes[0], mes).value, s.reservas[id].usuarioId, relojes)
  {
    var t1 := PasoSancion(s, id, ahora, relojes[0], mes).value;
    PasoSancionCrea(s, id, ahora, relojes[0], mes);
    PasoSancionSiguiente(s, id, ahora, relojes[0], mes);
    PasoSancionValido(s, id, ahora, relojes[0], mes);
    var x := t1.sanciones[s.nextId];
    forall i | 1 <= i < |relojes|
      ensures SancionService.Suspendido(t1.sanciones, s.reservas[id].usuarioId, relojes[i].now)
    {
      SancionService.SuspensionNoEfectivaAlCrearla(x, relojes[0].now, relojes[i].now);
    }
  }

  /** Once the call for the first listed reservation suspends its user, every
      later call of the run that reads the clock after it and before the end of
      that suspension refuses the user: the run gives the user that one
      sanction and no other. */
  lemma SuspensionCortaLaRacha(s: State, expiradas: seq<nat>, ahora: Time, relojes: seq<Reloj>, mes: Duration, fin: Time)
    requires Valid(s) && |relojes| == |expiradas| && expiradas != [] && expiradas[0] in s.reservas
    requires PasoSancion(s, expiradas[0], ahora, relojes[0], mes).Some?
    requires var t1 := PasoSancion(s, expiradas[0], ahora, relojes[0], mes).value;
      s.nextId in t1.sanciones && t1.sanciones[s.nextId].fechaFinSuspension == Some(fin)
    requires forall i :: 1 <= i < |relojes| ==> relojes[0].now < relojes[i].now < fin
    ensures UnicaNuevaDe(s, AplicarSanciones(s, expiradas, ahora, relojes, mes).state, s.reservas[expiradas[0]].usuarioId)
  {
    var t1 := PasoSancion(s, expiradas[0], ahora, relojes[0], mes).value;
    SuspendeTrasPaso(s, expiradas[0], ahora, relojes, mes, fin);
    RachaResto(s, t1, expiradas, ahora, relojes, mes, s.reservas[expiradas[0]].usuarioId);
    assert AplicarSanciones(s, expiradas, ahora, relojes, mes)
      == AplicarSanciones(t1, expiradas[1..], ahora, relojes[1..], mes);
  }

  /** Of the sanctions `t` has and `s` had not, the one under the next id of
      `s` is the only one of user `u`. */
  ghost predicate UnicaNuevaDe(s: State, t: State, u: nat)
  {
    && s.nextId in t.sanciones && t.sanciones[s.nextId].usuarioId == u
    && forall k :: k in t.sanciones && k !in s.sanciones && t.sanciones[k].usuarioId == u ==> k == s.nextId
  }

  /** From `s` to `t1` one sanction of `u` was added, under the next id, and
      `u` is suspended at every reading of `relojes` but the first. */
  ghost predicate Suspende(s: State, t1: State, u: nat, relojes: seq<Reloj>)
  {
    && Valid(t1)
    && s.nextId in t1.sanciones && t1.sanciones[s.nextId].usuarioId == u
    && t1.nextId <= s.nextId + 1
    && (forall k :: k in t1.sanciones <==> k in s.sanciones || s.nextId <= k < t1.nextId)
    && forall i :: 1 <= i < |relojes| ==> SancionService.Suspendido(t1.sanciones, u, relojes[i].now)
  }

  /** The rest of the run after the step that suspended `u`. */
  lemma RachaResto(s: State, t1: State, expiradas: seq<nat>, ahora: Time, relojes: seq<Reloj>, mes: Duration, u: nat)
    requires |relojes| == |expiradas| && expiradas != []
    requires Suspende(s, t1, u, relojes)
    ensures UnicaNuevaDe(s, AplicarSanciones(t1, expiradas[1..], ahora, relojes[1..], mes).state, u)
  {
    var despues := relojes[1..];
    assert forall i :: 0 <= i < |despues| ==> despues[i] == relojes[i + 1];
    AplicarRespetaSuspension(t1, expiradas[1..], ahora, despues, mes, u);
    AplicarSoloAnade(t1, expiradas[1..], ahora, despues, mes);
  }

  /** A reservation whose user is not in the database. */
  predicate SinUsuario(s: State, id: nat)
  {
    id in s.reservas && s.reservas[id].usuarioId !in s.usuarios
  }

  /** The job fails, with the NullPointerException of getUsuario().getId(),
      exactly when some listed reservation has no user. */
  lemma {:induction false} AplicarFallaSii(s: State, expiradas: seq<nat>, ahora: Time, relojes: seq<Reloj>, mes: Duration)
    requires |relojes| == |expiradas|
    ensures var st := AplicarSanciones(s, expiradas, ahora, relojes, mes);
      && (st.result.Err? <==> exists id :: id in expiradas && SinUsuario(s, id))
      && (st.result.Err? ==> st.result.error == NullPointer)
    decreases |expiradas|
  {
    if expiradas != [] {
      var id := expiradas[0];
      var resto := expiradas[1..];
      assert forall x :: x in expiradas <==> x == id || x in resto;
      if id !in s.reservas {
        AplicarFallaSii(s, resto, ahora, relojes[1..], mes);
      } else if PasoSancion(s, id, ahora, relojes[0], mes).Some? {
        var w := PasoSancion(s, id, ahora, relojes[0], mes).value;
        PasoSancionCrea(s, id, ahora, relojes[0], mes);
        AplicarFallaSii(w, resto, ahora, relojes[1..], mes);
        assert forall x :: SinUsuario(w, x) <==> SinUsuario(s, x);
        assert !SinUsuario(s, id);
        var st := AplicarSanciones(s, expiradas, ahora, relojes, mes);
        assert st == AplicarSanciones(w, resto, ahora, relojes[1..], mes);
        if st.result.Err? {
          var x :| x in resto && SinUsuario(w, x);
          assert x in expiradas && SinUsuario(s, x);
        } else {
          forall x | x in expiradas
            ensures !SinUsuario(s, x)
          {
            if x != id {
              assert x in resto;
            }
          }
        }
      } else {
        assert SinUsuario(s, id);
      }
    }
  }

  /** Over the listing the EXPIRADO query gives, the job fails exactly when
      some EXPIRADO reservation has no user. */
  lemma AplicarFallaSiiExpirada(s: State, expiradas: seq<nat>, ahora: Time, relojes: seq<Reloj>, mes: Duration)
    requires ListadoExpiradas(s.reservas, expiradas) && |relojes| == |expiradas|
    ensures AplicarSanciones(s, expiradas, ahora, relojes, mes).result.Err? <==>
      exists id :: id in s.reservas && s.reservas[id].estado == EstadoReserva.EXPIRADO && s.reservas[id].usuarioId !in s.usuarios
  {
    AplicarFallaSii(s, expiradas, ahora, relojes, mes);
  }

  // ------------------------------------------------------- the job itself

  /** aplicarSancionesAutomaticas on the database. `expiradas` is what the
      EXPIRADO query returned, in the order the database returned it; `ahora`
      is the instant read once before the loop and `relojes[i]` the readings
      of the crearConRegistrador call for `expiradas[i]`. */
  method AplicarSancionesAutomaticas(db: Store.Db, expiradas: seq<nat>, ahora: Time, relojes: seq<Reloj>, mes: Duration)
    returns (r: Result<()>)
    requires ListadoExpiradas(db.reservas, expiradas) && |relojes| == |expiradas|
    modifies db
    ensures r == AplicarSanciones(old(db.Snapshot()), expiradas, ahora, relojes, mes).result
    ensures db.Snapshot() == AplicarSanciones(old(db.Snapshot()), expiradas, ahora, relojes, mes).state
  {
    ghost var s0 := db.Snapshot();
    var i := 0;
    while i < |expiradas|
      invariant 0 <= i <= |expiradas|
      invariant AplicarSanciones(db.Snapshot(), expiradas[i..], ahora, relojes[i..], mes) == AplicarSanciones(s0, expiradas, ahora, relojes, mes)
    {
      var id := expiradas[i];
      assert expiradas[i..][1..] == expiradas[i + 1..];
      assert relojes[i..][1..] == relojes[i + 1..];
      if id in db.reservas {
        var reserva := db.reservas[id];
        if reserva.usuarioId !in db.usuarios {
          return Err(NullPointer);
        }
        var yaTieneSancion := YaSancionada(db.sanciones, reserva.usuarioId, id);
        if !yaTieneSancion && reserva.vehiculoId in db.vehiculos && reserva.espacioId in db.espacios {
          var dto := DtoAutomatico(reserva, id, db.espacios[reserva.espacioId].numeroEspacio, ahora);
          var _ := SancionService.CrearConRegistradorEnBd(db, dto, None, relojes[i].now, relojes[i].now2, mes);
        }
      }
      i := i + 1;
    }
    r := Ok(());
  }
}
