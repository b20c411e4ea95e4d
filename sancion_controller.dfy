/** SancionController: the punishment estimate shown before a sanction is
    created, and the two endpoints that sequence service calls: the complete
    creation (a sanction, then its detail) and the unblocking of a sanction. */
module SancionController {
  import opened Common
  import opened Entities
  import SancionService
  import SancionDetalleService
  import SancionesAutomaticas
  import Store

  // ---------------------------------------------------------------- estimate

  const ESTIMADO_SIETE_DIAS: string := "Suspensión temporal (7 días)"
  const ESTIMADO_TREINTA_DIAS: string := "Suspensión temporal (30 días)"
  const ESTIMADO_TOTAL: string := "Suspensión total"

  /** A value handed to Object.equals: an enum constant or a String. */
  datatype Objeto = Enum(e: EstadoSancion) | Texto(t: string)

  /** Object.equals: an enum constant equals only itself, a String only an equal String. */
  predicate ObjetoIgual(a: Objeto, b: Objeto)
  {
    a == b
  }

  /** The sanctions the estimate counts: the user's, with a detail of kind
      `tipo`, whose estado equals the String "ACTIVA" or "RESUELTA". */
  function SancionesEstimadas(s: State, usuarioId: nat, tipo: TipoFalta): set<nat>
  {
    set sid | sid in s.sanciones && s.sanciones[sid].usuarioId == usuarioId
      && SancionService.TieneDetalleDeTipo(s, sid, tipo)
      && (ObjetoIgual(Enum(s.sanciones[sid].estado), Texto("ACTIVA"))
          || ObjetoIgual(Enum(s.sanciones[sid].estado), Texto("RESUELTA")))
  }

  function ReincidenciasEstimadas(s: State, usuarioId: nat, tipo: TipoFalta): nat
  {
    |SancionesEstimadas(s, usuarioId, tipo)|
  }

  /** The estimate's table: the punishment for `reincidencias` previous offences
      of kind `tipo`; only the middle row carries a window, opened at `now`. */
  function EstimacionPara(tipo: TipoFalta, reincidencias: nat, now: Time): SancionService.Castigo
  {
    match tipo
    case LEVE =>
      if reincidencias == 0 then SancionService.Castigo(SancionService.AMONESTACION, None, None)
      else if reincidencias == 1 then SancionService.Castigo(ESTIMADO_SIETE_DIAS, Some(now), Some(now + 7 * DAY))
      else SancionService.Castigo(ESTIMADO_TOTAL, None, None)
    case GRAVE =>
      if reincidencias == 0 then SancionService.Castigo(ESTIMADO_SIETE_DIAS, None, None)
      else if reincidencias == 1 then SancionService.Castigo(ESTIMADO_TREINTA_DIAS, Some(now), Some(now + 30 * DAY))
      else SancionService.Castigo(ESTIMADO_TOTAL, None, None)
  }

  /** The body of the estimate's answer. */
  datatype Estimacion = Estimacion(
    tipoCastigo: string,
    fechaInicioSuspension: Option<Time>,
    fechaFinSuspension: Option<Time>,
    reincidencias: nat)

  /** obtenerCastigoEstimado(usuarioId, reglaId), reading the clock at `now`. */
  function ObtenerCastigoEstimado(s: State, usuarioId: nat, reglaId: nat, now: Time): Result<Estimacion>
  {
    if reglaId !in s.reglas then Err(Runtime("Regla no encontrada"))
    else
      var tipo := s.reglas[reglaId].tipoFalta;
      var r := ReincidenciasEstimadas(s, usuarioId, tipo);
      var c := EstimacionPara(tipo, r, now);
      Ok(Estimacion(c.tipo, c.inicio, c.fin, r))
  }

  /** An enum constant never equals a String, so the estimate counts nothing:
      whenever the applied table sees a previous offence, the estimate misses it. */
  lemma EstimacionNuncaCuenta(s: State, usuarioId: nat, tipo: TipoFalta)
    ensures ReincidenciasEstimadas(s, usuarioId, tipo) == 0
    ensures SancionService.Reincidencias(s, usuarioId, tipo) > 0 ==>
      ReincidenciasEstimadas(s, usuarioId, tipo) < SancionService.Reincidencias(s, usuarioId, tipo)
  {
    assert SancionesEstimadas(s, usuarioId, tipo) == {};
  }

  /** The estimate fails exactly for an unknown rule; otherwise it is decided by
      the rule's fault kind alone: "Amonestación" for LEVE and a seven-day
      suspension without any dates for GRAVE, with a reported count of 0. */
  lemma EstimacionCaracterizada(s: State, usuarioId: nat, reglaId: nat, now: Time)
    ensures var r := ObtenerCastigoEstimado(s, usuarioId, reglaId, now);
      && (r.Err? <==> reglaId !in s.reglas)
      && (r.Err? ==> r.error == Runtime("Regla no encontrada"))
      && (r.Ok? && s.reglas[reglaId].tipoFalta == LEVE ==>
            r.value == Estimacion(SancionService.AMONESTACION, None, None, 0))
      && (r.Ok? && s.reglas[reglaId].tipoFalta == GRAVE ==>
            r.value == Estimacion(ESTIMADO_SIETE_DIAS, None, None, 0))
  {
    if reglaId in s.reglas {
      EstimacionNuncaCuenta(s, usuarioId, s.reglas[reglaId].tipoFalta);
    }
  }

  /** Two databases with the same rules give the same estimate, for any user and
      any sanction history. */
  lemma EstimacionIgnoraHistorial(s1: State, s2: State, u1: nat, u2: nat, reglaId: nat, now: Time)
    requires s1.reglas == s2.reglas
    ensures ObtenerCastigoEstimado(s1, u1, reglaId, now) == ObtenerCastigoEstimado(s2, u2, reglaId, now)
  {
    if reglaId in s1.reglas {
      EstimacionNuncaCuenta(s1, u1, s1.reglas[reglaId].tipoFalta);
      EstimacionNuncaCuenta(s2, u2, s1.reglas[reglaId].tipoFalta);
    }
  }

  /** A name starting with "Suspensión" is a suspension. */
  lemma EmpiezaPorSuspension(nombre: string)
    requires |nombre| >= 10 && nombre[..10] == "Suspensión"
    ensures EsSuspensionTexto(nombre)
  {
    var w := ToLower(nombre);
    assert w[0] == 's' && w[1] == 'u' && w[2] == 's' && w[3] == 'p' && w[4] == 'e';
    assert w[5] == 'n' && w[6] == 's' && w[7] == 'i' && w[8] == 'ó' && w[9] == 'n';
    assert OccursAt(w, "suspensión", 0);
  }

  /** Every name of the estimate's table except the LEVE warning mentions "suspensión". */
  lemma NombresEstimados()
    ensures EsSuspensionTexto(ESTIMADO_SIETE_DIAS) && EsSuspensionTexto(ESTIMADO_TREINTA_DIAS)
    ensures EsSuspensionTexto(ESTIMADO_TOTAL) && !EsSuspensionTexto(SancionService.AMONESTACION)
  {
    EmpiezaPorSuspension(ESTIMADO_SIETE_DIAS);
    EmpiezaPorSuspension(ESTIMADO_TREINTA_DIAS);
    EmpiezaPorSuspension(ESTIMADO_TOTAL);
    var a := ToLower(SancionService.AMONESTACION);
    assert a[0] == 'a' && a[1] == 'm' && a[2] == 'o';
    forall i | 0 <= i <= |a| - 10 ensures !OccursAt(a, "suspensión", i) {
      assert a[i..i + 10][0] == a[i];
    }
  }

  /** The suspension test of SancionService on a bare name. */
  predicate EsSuspensionTexto(tipoCastigo: string)
  {
    SancionService.EsSuspension(Some(tipoCastigo))
  }

  /** The estimate's windows: a window exists only for one previous offence, it
      opens at `now` and lasts 7 days (LEVE) or 30 days (GRAVE); two or more give
      "Suspensión total" without dates. Every row but the LEVE warning is named
      a suspension, so the GRAVE first offence and the total suspension are
      suspensions with no window. */
  lemma TablaEstimada(tipo: TipoFalta, r: nat, now: Time)
    ensures var c := EstimacionPara(tipo, r, now);
      && (c.inicio.Some? <==> r == 1) && (c.fin.Some? <==> r == 1)
      && (r == 1 ==> c.inicio == Some(now) && c.fin == Some(now + (if tipo == LEVE then 7 else 30) * DAY))
      && (r >= 2 ==> c.tipo == ESTIMADO_TOTAL)
      && (EsSuspensionTexto(c.tipo) <==> !(tipo == LEVE && r == 0))
  {
    NombresEstimados();
  }

  /** The estimate never names a punishment the applied table can give, whatever
      the two counts are. */
  lemma EstimacionNuncaCoincide(tipo: TipoFalta, r1: nat, r2: nat, now: Time, mes: Duration)
    ensures EstimacionPara(tipo, r1, now).tipo != SancionService.CastigoPara(tipo, r2, now, mes).tipo
  {
    var e := EstimacionPara(tipo, r1, now).tipo;
    var c := SancionService.CastigoPara(tipo, r2, now, mes).tipo;
    assert e == SancionService.AMONESTACION || e == ESTIMADO_SIETE_DIAS || e == ESTIMADO_TREINTA_DIAS || e == ESTIMADO_TOTAL;
    assert c == SancionService.LLAMADA_DE_ATENCION || c == SancionService.SUSPENSION_SEMANA || c == SancionService.SUSPENSION_MES;
    assert ESTIMADO_SIETE_DIAS[20] != SancionService.SUSPENSION_SEMANA[20];
  }

  /** Concretely, for the same user and rule the estimate differs from what
      crearConRegistrador then stores: a LEVE rule with one previous offence is
      estimated as a seven-day suspension but punished with a warning. */
  lemma EstimacionNoAnticipa(s: State, dto: SancionService.SancionDto, registradaPor: Option<nat>, now: Time, now2: Time, mes: Duration)
    requires SancionService.CrearConRegistrador(s, dto, registradaPor, now, now2, mes).result.Ok?
    ensures dto.reglaId.Some? && dto.usuarioId.Some?
    ensures var t := SancionService.CrearConRegistrador(s, dto, registradaPor, now, now2, mes).state;
      var e := ObtenerCastigoEstimado(s, dto.usuarioId.value, dto.reglaId.value, now);
      && e.Ok?
      && t.sanciones[s.nextId].tipoCastigo != Some(e.value.tipoCastigo)
  {
    SancionService.CrearGuarda(s, dto, registradaPor, now, now2, mes);
    var tipo := s.reglas[dto.reglaId.value].tipoFalta;
    EstimacionNuncaCoincide(tipo, ReincidenciasEstimadas(s, dto.usuarioId.value, tipo),
      SancionService.Reincidencias(s, dto.usuarioId.value, tipo), now, mes);
  }

  // ------------------------------------------------------- complete creation

  const DESCRIPCION_POR_DEFECTO: string := "Sanción aplicada por infracción"

  /** The sanction dto crearSancionCompleta builds: ACTIVA, registered at `now`. */
  function DtoCompleta(usuarioId: nat, vehiculoId: nat, reglaId: nat, motivo: string, now: Time): SancionService.SancionDto
  {
    SancionService.SancionDto(Some(usuarioId), Some(vehiculoId), Some(motivo), Some(EstadoSancion.ACTIVA),
      Some(now), None, None, Some(reglaId), None, None, None)
  }

  /** The detail's description: an absent or empty one becomes the default. */
  function DescripcionDetalle(descripcion: Option<string>): string
  {
    if descripcion.None? || descripcion.value == [] then DESCRIPCION_POR_DEFECTO else descripcion.value
  }

  /** The detail dto: linked to the new sanction and the rule, ACTIVO. */
  function DtoDetalle(sancionId: nat, reglaId: nat, descripcion: Option<string>, fechaSancion: Time): SancionDetalleService.SancionDetalleDto
  {
    SancionDetalleService.SancionDetalleDto(Some(sancionId), Some(reglaId), Some(DescripcionDetalle(descripcion)),
      Some(fechaSancion), Some("ACTIVO"))
  }

  /** A detail description the detail validator accepts. */
  predicate DescripcionValida(descripcion: Option<string>)
  {
    5 <= |Trim(DescripcionDetalle(descripcion))| <= 500
  }

  /** The second half of crearSancionCompleta, on the database `c` that
      crearConRegistrador left: the detail of sanction `sancionId` through the
      detail service. */
  function AnadirDetalle(c: State, sancionId: nat, reglaId: nat, descripcion: Option<string>, fechaSancion: Time): Step<nat>
  {
    var d := SancionDetalleService.Crear(c, DtoDetalle(sancionId, reglaId, descripcion, fechaSancion));
    if d.result.Err? then Step(d.state, Err(d.result.error))
    else Step(d.state, Ok(sancionId))
  }

  /** crearSancionCompleta: crearConRegistrador (clock reads `now`, `now2`),
      then the detail (dated `fechaSancion`). There is no transaction: each
      call saves on its own. Returns the new sanction's id. */
  function CrearSancionCompleta(s: State, usuarioId: nat, vehiculoId: nat, reglaId: nat, motivo: string,
    descripcion: Option<string>, registradaPor: Option<nat>, now: Time, now2: Time, fechaSancion: Time, mes: Duration): Step<nat>
  {
    var c := SancionService.CrearConRegistrador(s, DtoCompleta(usuarioId, vehiculoId, reglaId, motivo, now), registradaPor, now, now2, mes);
    if c.result.Err? then c
    else AnadirDetalle(c.state, c.result.value, reglaId, descripcion, fechaSancion)
  }

  /** The default description passes the detail validator. */
  lemma DescripcionPorDefecto()
    ensures DescripcionDetalle(None) == DESCRIPCION_POR_DEFECTO && DescripcionDetalle(Some([])) == DESCRIPCION_POR_DEFECTO
    ensures DescripcionValida(None) && DescripcionValida(Some([]))
  {
    var d := DESCRIPCION_POR_DEFECTO;
    assert d[0] == 'S' && d[|d| - 1] == 'n';
    assert TrimStart(d) == d;
    assert TrimEnd(d) == d;
  }

  /** The detail dto carries the fixed ACTIVO state and both links, so only
      its description can fail the detail validator. */
  lemma DtoDetalleValido(sancionId: nat, reglaId: nat, descripcion: Option<string>, fechaSancion: Time)
    ensures SancionDetalleService.ValidarDatosSancionDetalle(DtoDetalle(sancionId, reglaId, descripcion, fechaSancion)).None?
      <==> DescripcionValida(descripcion)
    ensures SancionDetalleService.EstadoDe("ACTIVO") == EstadoDetalle.ACTIVO
  {
  }

  /** For a stored sanction and rule and a valid description, the detail is
      added under the next id, linked to both and ACTIVO. */
  lemma AnadirDetalleAceptado(c: State, sancionId: nat, reglaId: nat, descripcion: Option<string>, fechaSancion: Time)
    requires sancionId in c.sanciones && reglaId in c.reglas && DescripcionValida(descripcion)
    ensures AnadirDetalle(c, sancionId, reglaId, descripcion, fechaSancion)
      == Step(c.(detalles := c.detalles[c.nextId := SancionDetalle(sancionId, reglaId, DescripcionDetalle(descripcion), fechaSancion, EstadoDetalle.ACTIVO)],
                 nextId := c.nextId + 1), Ok(sancionId))
  {
    var ddto := DtoDetalle(sancionId, reglaId, descripcion, fechaSancion);
    DtoDetalleValido(sancionId, reglaId, descripcion, fechaSancion);
    assert SancionDetalleService.ErrorAlCrear(c, ddto).None?;
    assert SancionDetalleService.DetalleNuevo(ddto)
      == SancionDetalle(sancionId, reglaId, DescripcionDetalle(descripcion), fechaSancion, EstadoDetalle.ACTIVO);
    assert SancionDetalleService.Crear(c, ddto) == Step(SancionDetalleService.ConDetalle(c, ddto), Ok(c.nextId));
  }

  /** A description the detail validator refuses is an
      IllegalArgumentException after which nothing more is saved. */
  lemma AnadirDetalleRechazado(c: State, sancionId: nat, reglaId: nat, descripcion: Option<string>, fechaSancion: Time)
    requires !DescripcionValida(descripcion)
    ensures var st := AnadirDetalle(c, sancionId, reglaId, descripcion, fechaSancion);
      st.state == c && st.result.Err? && st.result.error.IllegalArgument?
  {
    DtoDetalleValido(sancionId, reglaId, descripcion, fechaSancion);
  }

  /** What crearConRegistrador leaves when it accepts: the new sanction under
      the next id, and the rules, details and users' ids as they were. */
  lemma SancionCreada(s: State, dto: SancionService.SancionDto, registradaPor: Option<nat>, now: Time, now2: Time, mes: Duration)
    requires SancionService.ErrorAlCrear(s, dto, now).None?
    ensures var c := SancionService.CrearConRegistrador(s, dto, registradaPor, now, now2, mes);
      && c.result == Ok(s.nextId) && c.state.nextId == s.nextId + 1
      && c.state.sanciones == s.sanciones[s.nextId := SancionService.NuevaSancion(s, dto, registradaPor, now, mes)]
      && c.state.reglas == s.reglas && c.state.detalles == s.detalles && c.state.reservas == s.reservas
  {
    var s1 := SancionService.ConNuevaSancion(s, dto, registradaPor, now, mes);
    assert SancionService.CrearConRegistrador(s, dto, registradaPor, now, now2, mes)
      == Step(SancionService.ActualizarEstadoUsuario(s1, dto.usuarioId.value, now2), Ok(s.nextId));
  }

  /** When crearConRegistrador refuses, the complete creation answers with its
      error and saves nothing. */
  lemma CompletaRechazada(s: State, usuarioId: nat, vehiculoId: nat, reglaId: nat, motivo: string,
    descripcion: Option<string>, registradaPor: Option<nat>, now: Time, now2: Time, fechaSancion: Time, mes: Duration)
    requires SancionService.ErrorAlCrear(s, DtoCompleta(usuarioId, vehiculoId, reglaId, motivo, now), now).Some?
    ensures CrearSancionCompleta(s, usuarioId, vehiculoId, reglaId, motivo, descripcion, registradaPor, now, now2, fechaSancion, mes)
      == Step(s, Err(SancionService.ErrorAlCrear(s, DtoCompleta(usuarioId, vehiculoId, reglaId, motivo, now), now).value))
  {
    var dto := DtoCompleta(usuarioId, vehiculoId, reglaId, motivo, now);
    assert SancionService.CrearConRegistrador(s, dto, registradaPor, now, now2, mes)
      == Step(s, Err(SancionService.ErrorAlCrear(s, dto, now).value));
  }

  /** When crearConRegistrador accepts, the detail is added to what it left. */
  lemma CompletaDe(s: State, usuarioId: nat, vehiculoId: nat, reglaId: nat, motivo: string,
    descripcion: Option<string>, registradaPor: Option<nat>, now: Time, now2: Time, fechaSancion: Time, mes: Duration)
    requires SancionService.ErrorAlCrear(s, DtoCompleta(usuarioId, vehiculoId, reglaId, motivo, now), now).None?
    ensures var c := SancionService.CrearConRegistrador(s, DtoCompleta(usuarioId, vehiculoId, reglaId, motivo, now), registradaPor, now, now2, mes);
      && s.nextId in c.state.sanciones && reglaId in c.state.reglas
      && CrearSancionCompleta(s, usuarioId, vehiculoId, reglaId, motivo, descripcion, registradaPor, now, now2, fechaSancion, mes)
         == AnadirDetalle(c.state, s.nextId, reglaId, descripcion, fechaSancion)
  {
    SancionCreada(s, DtoCompleta(usuarioId, vehiculoId, reglaId, motivo, now), registradaPor, now, now2, mes);
  }

  /** The complete creation succeeds exactly when crearConRegistrador accepts
      the sanction and the description is valid; when crearConRegistrador
      refuses, nothing is saved. */
  lemma CompletaSii(s: State, usuarioId: nat, vehiculoId: nat, reglaId: nat, motivo: string,
    descripcion: Option<string>, registradaPor: Option<nat>, now: Time, now2: Time, fechaSancion: Time, mes: Duration)
    ensures var st := CrearSancionCompleta(s, usuarioId, vehiculoId, reglaId, motivo, descripcion, registradaPor, now, now2, fechaSancion, mes);
      var dto := DtoCompleta(usuarioId, vehiculoId, reglaId, motivo, now);
      && (st.result.Ok? <==> SancionService.ErrorAlCrear(s, dto, now).None? && DescripcionValida(descripcion))
      && (SancionService.ErrorAlCrear(s, dto, now).Some? ==> st == Step(s, Err(SancionService.ErrorAlCrear(s, dto, now).value)))
  {
    var dto := DtoCompleta(usuarioId, vehiculoId, reglaId, motivo, now);
    if SancionService.ErrorAlCrear(s, dto, now).None? {
      CompletaDe(s, usuarioId, vehiculoId, reglaId, motivo, descripcion, registradaPor, now, now2, fechaSancion, mes);
      var c := SancionService.CrearConRegistrador(s, dto, registradaPor, now, now2, mes);
      if DescripcionValida(descripcion) {
        AnadirDetalleAceptado(c.state, s.nextId, reglaId, descripcion, fechaSancion);
      } else {
        AnadirDetalleRechazado(c.state, s.nextId, reglaId, descripcion, fechaSancion);
      }
    } else {
      CompletaRechazada(s, usuarioId, vehiculoId, reglaId, motivo, descripcion, registradaPor, now, now2, fechaSancion, mes);
    }
  }

  /** A successful complete creation stores the ACTIVA sanction under the next
      id and, under the id after it, one ACTIVO detail linked to that sanction
      and to the rule, with the given or the default description. */
  lemma CompletaGuarda(s: State, usuarioId: nat, vehiculoId: nat, reglaId: nat, motivo: string,
    descripcion: Option<string>, registradaPor: Option<nat>, now: Time, now2: Time, fechaSancion: Time, mes: Duration)
    requires CrearSancionCompleta(s, usuarioId, vehiculoId, reglaId, motivo, descripcion, registradaPor, now, now2, fechaSancion, mes).result.Ok?
    ensures var st := CrearSancionCompleta(s, usuarioId, vehiculoId, reglaId, motivo, descripcion, registradaPor, now, now2, fechaSancion, mes);
      var id := s.nextId;
      var t := st.state;
      && st.result.value == id && t.nextId == id + 2
      && t.sanciones == s.sanciones[id := t.sanciones[id]]
      && t.sanciones[id].usuarioId == usuarioId && t.sanciones[id].vehiculoId == vehiculoId
      && t.sanciones[id].motivo == motivo && t.sanciones[id].estado == EstadoSancion.ACTIVA
      && t.detalles == s.detalles[id + 1 := SancionDetalle(id, reglaId, DescripcionDetalle(descripcion), fechaSancion, EstadoDetalle.ACTIVO)]
      && t.reglas == s.reglas && t.reservas == s.reservas
  {
    var dto := DtoCompleta(usuarioId, vehiculoId, reglaId, motivo, now);
    CompletaSii(s, usuarioId, vehiculoId, reglaId, motivo, descripcion, registradaPor, now, now2, fechaSancion, mes);
    SancionCreada(s, dto, registradaPor, now, now2, mes);
    CompletaDe(s, usuarioId, vehiculoId, reglaId, motivo, descripcion, registradaPor, now, now2, fechaSancion, mes);
    var c := SancionService.CrearConRegistrador(s, dto, registradaPor, now, now2, mes);
    AnadirDetalleAceptado(c.state, s.nextId, reglaId, descripcion, fechaSancion);
  }

  /** Without a transaction, a detail the detail service refuses (a description
      that is blank or out of length after trimming) leaves the new sanction
      saved with no detail, so it never counts as a previous offence. */
  lemma CompletaSinDetalle(s: State, usuarioId: nat, vehiculoId: nat, reglaId: nat, motivo: string,
    descripcion: Option<string>, registradaPor: Option<nat>, now: Time, now2: Time, fechaSancion: Time, mes: Duration, tipo: TipoFalta)
    requires Valid(s)
    requires SancionService.ErrorAlCrear(s, DtoCompleta(usuarioId, vehiculoId, reglaId, motivo, now), now).None?
    requires !DescripcionValida(descripcion)
    ensures var st := CrearSancionCompleta(s, usuarioId, vehiculoId, reglaId, motivo, descripcion, registradaPor, now, now2, fechaSancion, mes);
      && st.result.Err? && st.result.error.IllegalArgument?
      && st.state == SancionService.CrearConRegistrador(s, DtoCompleta(usuarioId, vehiculoId, reglaId, motivo, now), registradaPor, now, now2, mes).state
      && s.nextId in st.state.sanciones
      && (forall d :: d in st.state.detalles ==> st.state.detalles[d].sancionId != s.nextId)
      && s.nextId !in SancionService.SancionesReincidentes(st.state, usuarioId, tipo)
  {
    var dto := DtoCompleta(usuarioId, vehiculoId, reglaId, motivo, now);
    SancionCreada(s, dto, registradaPor, now, now2, mes);
    CompletaDe(s, usuarioId, vehiculoId, reglaId, motivo, descripcion, registradaPor, now, now2, fechaSancion, mes);
    var c := SancionService.CrearConRegistrador(s, dto, registradaPor, now, now2, mes);
    AnadirDetalleRechazado(c.state, s.nextId, reglaId, descripcion, fechaSancion);
    SancionService.CuentaReincidencia(c.state, usuarioId, tipo, s.nextId);
  }

  /** Adding to a well-formed database one ACTIVA sanction of `usuarioId` under
      the next id and one detail of it under the id after, linked to a rule of
      kind `tipo`, makes the new sanction count for that kind and keeps every
      other sanction's standing. */
  lemma AnadirConDetalleCuenta(s: State, t: State, usuarioId: nat, reglaId: nat, descripcion: string, fecha: Time, tipo: TipoFalta)
    requires Valid(s)
    requires s.nextId in t.sanciones && t.sanciones == s.sanciones[s.nextId := t.sanciones[s.nextId]]
    requires t.sanciones[s.nextId].usuarioId == usuarioId && t.sanciones[s.nextId].estado == EstadoSancion.ACTIVA
    requires t.detalles == s.detalles[s.nextId + 1 := SancionDetalle(s.nextId, reglaId, descripcion, fecha, EstadoDetalle.ACTIVO)]
    requires t.reglas == s.reglas && reglaId in s.reglas && s.reglas[reglaId].tipoFalta == tipo
    ensures SancionService.SancionesReincidentes(t, usuarioId, tipo) == SancionService.SancionesReincidentes(s, usuarioId, tipo) + {s.nextId}
  {
    var id := s.nextId;
    var k := s.nextId + 1;
    forall sid | sid in s.sanciones
      ensures SancionService.TieneDetalleDeTipo(t, sid, tipo) == SancionService.TieneDetalleDeTipo(s, sid, tipo)
    {
      if SancionService.TieneDetalleDeTipo(s, sid, tipo) {
        var d :| d in s.detalles && s.detalles[d].sancionId == sid
          && s.detalles[d].reglaId in s.reglas && s.reglas[s.detalles[d].reglaId].tipoFalta == tipo;
        assert t.detalles[d] == s.detalles[d];
      }
      if SancionService.TieneDetalleDeTipo(t, sid, tipo) {
        var d :| d in t.detalles && t.detalles[d].sancionId == sid
          && t.detalles[d].reglaId in t.reglas && t.reglas[t.detalles[d].reglaId].tipoFalta == tipo;
        assert d != k;
        assert s.detalles[d] == t.detalles[d];
      }
    }
    assert SancionService.TieneDetalleDeTipo(t, id, tipo) by {
      assert k in t.detalles;
    }
    assert id !in s.sanciones;
  }

  /** After a complete creation the new sanction counts as a previous offence
      of the rule's kind for the next crearConRegistrador, on top of the ones
      that counted before. */
  lemma CompletaCuenta(s: State, usuarioId: nat, vehiculoId: nat, reglaId: nat, motivo: string,
    descripcion: Option<string>, registradaPor: Option<nat>, now: Time, now2: Time, fechaSancion: Time, mes: Duration)
    requires Valid(s)
    requires CrearSancionCompleta(s, usuarioId, vehiculoId, reglaId, motivo, descripcion, registradaPor, now, now2, fechaSancion, mes).result.Ok?
    ensures reglaId in s.reglas
    ensures var t := CrearSancionCompleta(s, usuarioId, vehiculoId, reglaId, motivo, descripcion, registradaPor, now, now2, fechaSancion, mes).state;
      var tipo := s.reglas[reglaId].tipoFalta;
      SancionService.SancionesReincidentes(t, usuarioId, tipo) == SancionService.SancionesReincidentes(s, usuarioId, tipo) + {s.nextId}
  {
    CompletaSii(s, usuarioId, vehiculoId, reglaId, motivo, descripcion, registradaPor, now, now2, fechaSancion, mes);
    CompletaGuarda(s, usuarioId, vehiculoId, reglaId, motivo, descripcion, registradaPor, now, now2, fechaSancion, mes);
    var t := CrearSancionCompleta(s, usuarioId, vehiculoId, reglaId, motivo, descripcion, registradaPor, now, now2, fechaSancion, mes).state;
    AnadirConDetalleCuenta(s, t, usuarioId, reglaId, DescripcionDetalle(descripcion), fechaSancion, s.reglas[reglaId].tipoFalta);
  }

  method CrearSancionCompletaEnBd(db: Store.Db, usuarioId: nat, vehiculoId: nat, reglaId: nat, motivo: string,
    descripcion: Option<string>, registradaPor: Option<nat>, now: Time, now2: Time, fechaSancion: Time, mes: Duration)
    returns (r: Result<nat>)
    modifies db
    ensures r == CrearSancionCompleta(old(db.Snapshot()), usuarioId, vehiculoId, reglaId, motivo, descripcion, registradaPor, now, now2, fechaSancion, mes).result
    ensures db.Snapshot() == CrearSancionCompleta(old(db.Snapshot()), usuarioId, vehiculoId, reglaId, motivo, descripcion, registradaPor, now, now2, fechaSancion, mes).state
  {
    var dto := DtoCompleta(usuarioId, vehiculoId, reglaId, motivo, now);
    var creada := SancionService.CrearConRegistradorEnBd(db, dto, registradaPor, now, now2, mes);
    if creada.Err? {
      return creada;
    }
    var detalle := SancionDetalleService.CrearEnBd(db, DtoDetalle(creada.value, reglaId, descripcion, fechaSancion));
    if detalle.Err? {
      return Err(detalle.error);
    }
    r := Ok(creada.value);
  }

  // ---------------------------------------------------------------- unblock

  /** Some detail of the sanction exists. */
  predicate TieneDetalle(s: State, id: nat)
  {
    exists d :: d in s.detalles && s.detalles[d].sancionId == id
  }

  /** The rule id SancionMapper.toDto reads from the first detail of the
      sanction's unordered detail set, or null when it has none. */
  ghost function ReglaDeDetalle(s: State, id: nat): (r: Option<nat>)
    ensures r.None? <==> !TieneDetalle(s, id)
  {
    if TieneDetalle(s, id) then
      var d :| d in s.detalles && s.detalles[d].sancionId == id;
      Some(s.detalles[d].reglaId)
    else None
  }

  /** SancionMapper.toDto of a stored sanction, with the rule id it read. */
  function DtoDe(x: Sancion, reglaId: Option<nat>): SancionService.SancionDto
  {
    SancionService.SancionDto(Some(x.usuarioId), Some(x.vehiculoId), Some(x.motivo), Some(x.estado),
      Some(x.registroSancion), x.observaciones, x.fechaResolucion, reglaId,
      x.tipoCastigo, x.fechaInicioSuspension, x.fechaFinSuspension)
  }

  /** desbloquearSancion(id): obtenerPorId, the dto's estado set to RESUELTA,
      then actualizar (clock reads `now`, `now2`). */
  ghost function DesbloquearSancion(s: State, id: Option<nat>, now: Time, now2: Time): Step<nat>
  {
    if id.None? then Step(s, Err(IllegalArgument("El ID no puede ser null")))
    else if id.value !in s.sanciones then
      Step(s, Err(EntityNotFound("Sanción no encontrada con ID: " + NatToString(id.value))))
    else
      var x := s.sanciones[id.value];
      SancionService.Actualizar(s, id, DtoDe(x, ReglaDeDetalle(s, id.value)).(estado := Some(EstadoSancion.RESUELTA)), now, now2)
  }

  /** What the stored sanction must satisfy for actualizar to accept its own dto. */
  predicate Actualizable(s: State, x: Sancion)
  {
    && 10 <= |Trim(x.motivo)| <= 500
    && (x.observaciones.Some? ==> |x.observaciones.value| <= 1000)
    && x.usuarioId in s.usuarios && x.vehiculoId in s.vehiculos
  }

  /** actualizar reads the dto's rule id only to check that it is present. */
  lemma ActualizarIgnoraRegla(s: State, id: Option<nat>, dto: SancionService.SancionDto, r1: nat, r2: nat, now: Time, now2: Time)
    ensures SancionService.Actualizar(s, id, dto.(reglaId := Some(r1)), now, now2)
      == SancionService.Actualizar(s, id, dto.(reglaId := Some(r2)), now, now2)
  {
    var d1 := dto.(reglaId := Some(r1));
    var d2 := dto.(reglaId := Some(r2));
    assert SancionService.ValidarDatosSancion(d1) == SancionService.ValidarDatosSancion(d2);
    assert SancionService.ErrorAlActualizar(s, id, d1) == SancionService.ErrorAlActualizar(s, id, d2);
    if SancionService.ErrorAlActualizar(s, id, d1).None? {
      MezclaIgnoraRegla(s.sanciones[id.value], dto, r1, r2, now);
    }
  }

  /** The field merge of actualizar does not read the dto's rule id. */
  lemma MezclaIgnoraRegla(x: Sancion, dto: SancionService.SancionDto, r1: nat, r2: nat, now: Time)
    requires SancionService.ValidarDatosSancion(dto.(reglaId := Some(r1))).None?
    ensures SancionService.ValidarDatosSancion(dto.(reglaId := Some(r2))).None?
    ensures SancionService.SancionActualizada(x, dto.(reglaId := Some(r1)), now)
      == SancionService.SancionActualizada(x, dto.(reglaId := Some(r2)), now)
  {
  }

  /** Unblocking succeeds exactly for a stored sanction that has a detail and
      whose own fields pass validation; a null id and an unknown id are refused
      as obtenerPorId refuses them, and every refusal saves nothing. */
  lemma DesbloquearSii(s: State, id: Option<nat>, now: Time, now2: Time)
    ensures var st := DesbloquearSancion(s, id, now, now2);
      && (st.result.Ok? <==>
            (id.Some? && id.value in s.sanciones && TieneDetalle(s, id.value) && Actualizable(s, s.sanciones[id.value])))
      && (id.None? ==> st.result == Err(IllegalArgument("El ID no puede ser null")))
      && (id.Some? && id.value !in s.sanciones ==> st.result.Err? && st.result.error.EntityNotFound?)
      && (st.result.Err? ==> st.state == s)
  {
    if id.Some? && id.value in s.sanciones {
      var x := s.sanciones[id.value];
      var dto := DtoDe(x, ReglaDeDetalle(s, id.value)).(estado := Some(EstadoSancion.RESUELTA));
      SancionService.ActualizarConserva(s, id, dto, now, now2);
      if SancionService.ErrorAlActualizar(s, id, dto).None? {
        var s1 := SancionService.ConSancionActualizada(s, id.value, dto, now);
        SancionService.EstadoUsuarioCorrecto(s1, x.usuarioId, now2);
      }
    }
  }

  /** A sanction without details, the kind the automatic job creates, can
      never be unblocked: the rebuilt dto has no rule id, validation refuses it
      and nothing is saved. */
  lemma DesbloquearSinDetalle(s: State, id: nat, now: Time, now2: Time)
    requires id in s.sanciones && !TieneDetalle(s, id)
    ensures var st := DesbloquearSancion(s, Some(id), now, now2);
      && st.state == s && st.result.Err? && st.result.error.IllegalArgument?
      && (10 <= |Trim(s.sanciones[id].motivo)| <= 500 ==>
            st.result.error == IllegalArgument("La regla infringida no puede estar vacía"))
  {
    var x := s.sanciones[id];
    var dto := DtoDe(x, None).(estado := Some(EstadoSancion.RESUELTA));
    assert SancionService.ValidarDatosSancion(dto).Some?;
  }

  /** The sanction the automatic job has just stored cannot be unblocked. */
  lemma AutomaticaNoSeDesbloquea(s: State, reserva: nat, ahora: Time, reloj: SancionesAutomaticas.Reloj, mes: Duration, now3: Time, now4: Time)
    requires Valid(s) && reserva in s.reservas
    requires SancionesAutomaticas.PasoSancion(s, reserva, ahora, reloj, mes).Some?
    requires SancionesAutomaticas.Sancionable(s, reserva, ahora, reloj)
    ensures var t := SancionesAutomaticas.PasoSancion(s, reserva, ahora, reloj, mes).value;
      && s.nextId in t.sanciones
      && DesbloquearSancion(t, Some(s.nextId), now3, now4).result.Err?
      && DesbloquearSancion(t, Some(s.nextId), now3, now4).result.error.IllegalArgument?
      && DesbloquearSancion(t, Some(s.nextId), now3, now4).state == t
  {
    SancionesAutomaticas.PasoSancionCrea(s, reserva, ahora, reloj, mes);
    var t := SancionesAutomaticas.PasoSancion(s, reserva, ahora, reloj, mes).value;
    assert !TieneDetalle(t, s.nextId);
    DesbloquearSinDetalle(t, s.nextId, now3, now4);
  }

  /** A successful unblock stores the same sanction with estado RESUELTA, stamps
      the resolution date at `now` unless it was already RESUELTA, changes no
      other sanction, and the sanction is no suspension in effect from then on;
      the user's flag is then "not suspended" at `now2`. */
  lemma DesbloquearResuelve(s: State, id: nat, now: Time, now2: Time)
    requires DesbloquearSancion(s, Some(id), now, now2).result.Ok?
    ensures id in s.sanciones
    ensures var t := DesbloquearSancion(s, Some(id), now, now2).state;
      var x := s.sanciones[id];
      && t.sanciones == s.sanciones[id := x.(estado := EstadoSancion.RESUELTA,
           fechaResolucion := if x.estado != EstadoSancion.RESUELTA then Some(now) else x.fechaResolucion)]
      && (forall later :: !SancionService.SuspensionEfectiva(t.sanciones[id], later))
      && t.usuarios[x.usuarioId].activo == !SancionService.Suspendido(t.sanciones, x.usuarioId, now2)
      && t.detalles == s.detalles
  {
    DesbloquearSii(s, Some(id), now, now2);
    var x := s.sanciones[id];
    var dto := DtoDe(x, ReglaDeDetalle(s, id)).(estado := Some(EstadoSancion.RESUELTA));
    var s1 := SancionService.ConSancionActualizada(s, id, dto, now);
    SancionService.EstadoUsuarioCorrecto(s1, x.usuarioId, now2);
    assert DesbloquearSancion(s, Some(id), now, now2).state == SancionService.ActualizarEstadoUsuario(s1, x.usuarioId, now2);
  }

  /** When no other sanction of the user is a suspension in effect at `now2`,
      unblocking reactivates the user and every vehicle of the user. */
  lemma DesbloquearReactiva(s: State, id: nat, now: Time, now2: Time)
    requires DesbloquearSancion(s, Some(id), now, now2).result.Ok?
    requires id in s.sanciones
    requires forall k :: k in s.sanciones && k != id && s.sanciones[k].usuarioId == s.sanciones[id].usuarioId ==>
      !SancionService.SuspensionEfectiva(s.sanciones[k], now2)
    ensures var t := DesbloquearSancion(s, Some(id), now, now2).state;
      var u := s.sanciones[id].usuarioId;
      && t.usuarios[u].activo
      && forall v :: v in t.vehiculos && t.vehiculos[v].usuarioId == u ==> t.vehiculos[v].activo
  {
    DesbloquearResuelve(s, id, now, now2);
    var x := s.sanciones[id];
    var dto := DtoDe(x, ReglaDeDetalle(s, id)).(estado := Some(EstadoSancion.RESUELTA));
    var s1 := SancionService.ConSancionActualizada(s, id, dto, now);
    SancionService.EstadoUsuarioCorrecto(s1, x.usuarioId, now2);
    assert !SancionService.Suspendido(s1.sanciones, x.usuarioId, now2);
  }

  method DesbloquearSancionEnBd(db: Store.Db, id: Option<nat>, now: Time, now2: Time) returns (r: Result<nat>)
    modifies db
    ensures r == DesbloquearSancion(old(db.Snapshot()), id, now, now2).result
    ensures db.Snapshot() == DesbloquearSancion(old(db.Snapshot()), id, now, now2).state
  {
    if id.None? {
      return Err(IllegalArgument("El ID no puede ser null"));
    }
    if id.value !in db.sanciones {
      return Err(EntityNotFound("Sanción no encontrada con ID: " + NatToString(id.value)));
    }
    ghost var s := db.Snapshot();
    var x := db.sanciones[id.value];
    var reglaId: Option<nat> := None;
    if exists d :: d in db.detalles && db.detalles[d].sancionId == id.value {
      var d :| d in db.detalles && db.detalles[d].sancionId == id.value;
      reglaId := Some(db.detalles[d].reglaId);
      ActualizarIgnoraRegla(s, id, DtoDe(x, None).(estado := Some(EstadoSancion.RESUELTA)), db.detalles[d].reglaId, ReglaDeDetalle(s, id.value).value, now, now2);
    }
    var dto := DtoDe(x, reglaId).(estado := Some(EstadoSancion.RESUELTA));
    assert SancionService.Actualizar(s, id, dto, now, now2)
      == SancionService.Actualizar(s, id, DtoDe(x, ReglaDeDetalle(s, id.value)).(estado := Some(EstadoSancion.RESUELTA)), now, now2);
    r := SancionService.ActualizarEnBd(db, id, dto, now, now2);
  }
}
