/** EspacioDisponibleServiceImpl (the copy under parkingApp/): the field
    checks, the defaults of crear, and actualizar, which rebuilds the space
    from the dto but keeps the stored status of a space that is RESERVADO or
    OCUPADO and the stored date and activo where the dto is silent. */
module EspacioService {
  import opened Common
  import opened Entities
  import Store

  /** EspacioDisponibleDto as crear and actualizar read it. */
  datatype EspacioDto = EspacioDto(
    ubicacion: Option<string>,
    numeroEspacio: Option<string>,
    zona: Option<string>,
    estado: Option<EstadoEspacio>,
    capacidadMaxima: Option<int>,
    activo: Option<bool>,
    fechaRegistro: Option<Time>)

  const MSG_ID_NULL: string := "El ID no puede ser null"

  function NoEncontrado(id: nat): Error
  {
    EntityNotFound("Espacio no encontrado con ID: " + NatToString(id))
  }

  /** A string field that is present and not empty once trimmed. */
  predicate Presente(x: Option<string>)
  {
    x.Some? && TieneTexto(x.value)
  }

  /** validarDatosEspacio: the checks in their order. */
  function ValidarDatosEspacio(dto: EspacioDto): (r: Option<Error>)
    ensures r.None? <==> Presente(dto.ubicacion) && Presente(dto.numeroEspacio) && Presente(dto.zona) && dto.estado.Some?
    ensures r.Some? ==> r.value.IllegalArgument?
  {
    if !Presente(dto.ubicacion) then Some(IllegalArgument("La ubicación no puede estar vacía"))
    else if !Presente(dto.numeroEspacio) then Some(IllegalArgument("El número de espacio no puede estar vacío"))
    else if !Presente(dto.zona) then Some(IllegalArgument("La zona no puede estar vacía"))
    else if dto.estado.None? then Some(IllegalArgument("El estado no puede estar vacío"))
    else None
  }

  /** The status actualizar may not overwrite. */
  predicate Protegido(estado: EstadoEspacio)
  {
    estado == EstadoEspacio.RESERVADO || estado == EstadoEspacio.OCUPADO
  }

  // ------------------------------------------------------------------ crear

  /** The space crear saves: the dto's fields, with the registration date
      defaulting to `now`, activo to true and the capacity to 1 (the last on
      persist). */
  function EspacioNuevo(dto: EspacioDto, now: Time): Espacio
    requires ValidarDatosEspacio(dto).None?
  {
    Espacio(dto.ubicacion.value, dto.numeroEspacio.value, dto.zona.value, dto.estado.value,
      if dto.capacidadMaxima.Some? then dto.capacidadMaxima else Some(1),
      if dto.fechaRegistro.Some? then dto.fechaRegistro.value else now,
      if dto.activo.Some? then dto.activo.value else true)
  }

  /** crear(dto); the clock reads `now`. Returns the id of the new space. */
  function Crear(s: State, dto: EspacioDto, now: Time): Step<nat>
  {
    match ValidarDatosEspacio(dto)
    case Some(e) => Step(s, Err(e))
    case None => Step(s.(espacios := s.espacios[s.nextId := EspacioNuevo(dto, now)], nextId := s.nextId + 1), Ok(s.nextId))
  }

  /** crear succeeds exactly on a valid dto; it then adds one space with the
      dto's status and the defaults filled in, and a refusal saves nothing. */
  lemma CrearConDefectos(s: State, dto: EspacioDto, now: Time)
    ensures var st := Crear(s, dto, now);
      && (st.result.Ok? <==> ValidarDatosEspacio(dto).None?)
      && (st.result.Err? ==> st.state == s)
      && (st.result.Ok? ==>
            var e := st.state.espacios[s.nextId];
            && st.result.value == s.nextId
            && st.state == s.(espacios := s.espacios[s.nextId := e], nextId := s.nextId + 1)
            && e.estado == dto.estado.value && e.ubicacion == dto.ubicacion.value && e.zona == dto.zona.value
            && e.fechaRegistro == (if dto.fechaRegistro.None? then now else dto.fechaRegistro.value)
            && e.activo == (dto.activo != Some(false))
            && e.capacidadMaxima.Some?)
  {
    if ValidarDatosEspacio(dto).None? {
      assert Crear(s, dto, now).state.espacios[s.nextId] == EspacioNuevo(dto, now);
    }
  }

  method CrearEnBd(db: Store.Db, dto: EspacioDto, now: Time) returns (r: Result<nat>)
    modifies db`espacios, db`nextId
    ensures r == Crear(old(db.Snapshot()), dto, now).result
    ensures db.Snapshot() == Crear(old(db.Snapshot()), dto, now).state
  {
    var error := ValidarDatosEspacio(dto);
    if error.Some? {
      return Err(error.value);
    }
    var espacio := Espacio(dto.ubicacion.value, dto.numeroEspacio.value, dto.zona.value, dto.estado.value,
      dto.capacidadMaxima, now, true);
    if dto.fechaRegistro.Some? {
      espacio := espacio.(fechaRegistro := dto.fechaRegistro.value);
    }
    if dto.activo.Some? {
      espacio := espacio.(activo := dto.activo.value);
    }
    if espacio.capacidadMaxima.None? {
      espacio := espacio.(capacidadMaxima := Some(1));
    }
    var id := db.NuevoId();
    db.espacios := db.espacios[id := espacio];
    r := Ok(id);
  }

  // ------------------------------------------------------------- actualizar

  /** The checks of actualizar in their order: the id and its row come before
      the dto. */
  function ErrorAlActualizar(s: State, id: Option<nat>, dto: EspacioDto): (r: Option<Error>)
    ensures r.None? <==> id.Some? && id.value in s.espacios && ValidarDatosEspacio(dto).None?
  {
    if id.None? then Some(IllegalArgument(MSG_ID_NULL))
    else if id.value !in s.espacios then Some(NoEncontrado(id.value))
    else ValidarDatosEspacio(dto)
  }

  /** The space actualizar saves in place of `existente`: the dto's fields;
      the stored date and activo where the dto has none; the stored status
      when it is RESERVADO or OCUPADO. The capacity is the dto's, absent or
      not (the defaults of persist do not apply to an update). */
  function EspacioActualizado(existente: Espacio, dto: EspacioDto): Espacio
    requires ValidarDatosEspacio(dto).None?
  {
    Espacio(dto.ubicacion.value, dto.numeroEspacio.value, dto.zona.value,
      if Protegido(existente.estado) then existente.estado else dto.estado.value,
      dto.capacidadMaxima,
      if dto.fechaRegistro.None? then existente.fechaRegistro else dto.fechaRegistro.value,
      if dto.activo.None? then existente.activo else dto.activo.value)
  }

  /** actualizar(id, dto). */
  function Actualizar(s: State, id: Option<nat>, dto: EspacioDto): Step<nat>
  {
    match ErrorAlActualizar(s, id, dto)
    case Some(e) => Step(s, Err(e))
    case None => Step(s.(espacios := s.espacios[id.value := EspacioActualizado(s.espacios[id.value], dto)]), Ok(id.value))
  }

  /** actualizar never changes the status of a space that is RESERVADO or
      OCUPADO, whatever the dto says; any other space takes the dto's status.
      The date and activo are kept where the dto is silent, only that space
      changes, and a refusal (null id, unknown id, invalid dto) saves nothing. */
  lemma ActualizarProtegeEstado(s: State, id: Option<nat>, dto: EspacioDto)
    ensures var st := Actualizar(s, id, dto);
      && (id.None? ==> st.result == Err(IllegalArgument(MSG_ID_NULL)))
      && (id.Some? && id.value !in s.espacios ==> st.result == Err(NoEncontrado(id.value)))
      && (st.result.Ok? <==> id.Some? && id.value in s.espacios && ValidarDatosEspacio(dto).None?)
      && (st.result.Err? ==> st.state == s)
      && (st.result.Ok? ==>
            var antes := s.espacios[id.value];
            var despues := st.state.espacios[id.value];
            && st.state == s.(espacios := s.espacios[id.value := despues])
            && (Protegido(antes.estado) ==> despues.estado == antes.estado)
            && (!Protegido(antes.estado) ==> despues.estado == dto.estado.value)
            && despues.ubicacion == dto.ubicacion.value && despues.zona == dto.zona.value
            && despues.fechaRegistro == (if dto.fechaRegistro.None? then antes.fechaRegistro else dto.fechaRegistro.value)
            && despues.activo == (if dto.activo.None? then antes.activo else dto.activo.value))
  {
    if ErrorAlActualizar(s, id, dto).None? {
      assert Actualizar(s, id, dto).state.espacios[id.value] == EspacioActualizado(s.espacios[id.value], dto);
    }
  }

  /** Repeating an update with the same dto changes nothing more. */
  lemma ActualizarIdempotente(s: State, id: Option<nat>, dto: EspacioDto)
    ensures var st := Actualizar(s, id, dto);
      Actualizar(st.state, id, dto) == st
  {
    if ErrorAlActualizar(s, id, dto).None? {
      var e := EspacioActualizado(s.espacios[id.value], dto);
      var t := s.(espacios := s.espacios[id.value := e]);
      assert Actualizar(s, id, dto) == Step(t, Ok(id.value));
      assert EspacioActualizado(e, dto) == e;
      assert t.espacios[id.value := e] == t.espacios;
    }
  }

  method ActualizarEnBd(db: Store.Db, id: Option<nat>, dto: EspacioDto) returns (r: Result<nat>)
    modifies db`espacios
    ensures r == Actualizar(old(db.Snapshot()), id, dto).result
    ensures db.Snapshot() == Actualizar(old(db.Snapshot()), id, dto).state
  {
    var error := ErrorAlActualizar(db.Snapshot(), id, dto);
    if error.Some? {
      return Err(error.value);
    }
    var existente := db.espacios[id.value];
    var espacio := Espacio(dto.ubicacion.value, dto.numeroEspacio.value, dto.zona.value, dto.estado.value,
      dto.capacidadMaxima, existente.fechaRegistro, existente.activo);
    if dto.fechaRegistro.Some? {
      espacio := espacio.(fechaRegistro := dto.fechaRegistro.value);
    }
    if dto.activo.Some? {
      espacio := espacio.(activo := dto.activo.value);
    }
    if existente.estado == EstadoEspacio.RESERVADO || existente.estado == EstadoEspacio.OCUPADO {
      espacio := espacio.(estado := existente.estado);
    }
    db.espacios := db.espacios[id.value := espacio];
    r := Ok(id.value);
  }

  // --------------------------------------------------------------- eliminar

  /** eliminar(id). */
  function Eliminar(s: State, id: Option<nat>): Step<()>
  {
    if id.None? then Step(s, Err(IllegalArgument(MSG_ID_NULL)))
    else if id.value !in s.espacios then Step(s, Err(NoEncontrado(id.value)))
    else Step(s.(espacios := s.espacios - {id.value}), Ok(()))
  }

  /** eliminar removes exactly the named space, or throws and changes nothing. */
  lemma EliminarQuitaUno(s: State, id: Option<nat>)
    ensures var st := Eliminar(s, id);
      && (st.result.Ok? <==> id.Some? && id.value in s.espacios)
      && (id.None? ==> st.result == Err(IllegalArgument(MSG_ID_NULL)))
      && (st.result.Err? ==> st.state == s)
      && (st.result.Ok? ==>
            && st.state.espacios.Keys == s.espacios.Keys - {id.value}
            && (forall e :: e in st.state.espacios ==> st.state.espacios[e] == s.espacios[e])
            && st.state == s.(espacios := st.state.espacios))
  {
  }

  method EliminarEnBd(db: Store.Db, id: Option<nat>) returns (r: Result<()>)
    modifies db`espacios
    ensures r == Eliminar(old(db.Snapshot()), id).result
    ensures db.Snapshot() == Eliminar(old(db.Snapshot()), id).state
  {
    if id.None? {
      return Err(IllegalArgument(MSG_ID_NULL));
    }
    if id.value !in db.espacios {
      return Err(NoEncontrado(id.value));
    }
    db.espacios := db.espacios - {id.value};
    r := Ok(());
  }

  // ---------------------------------------------------------------- queries

  /** buscarPorEstado(estado). */
  function BuscarPorEstado(s: State, estado: Option<EstadoEspacio>): (r: Result<set<nat>>)
    ensures estado.None? <==> r.Err?
    ensures r.Ok? ==> forall e :: e in r.value <==> e in s.espacios && s.espacios[e].estado == estado.value
  {
    if estado.None? then Err(IllegalArgument("El estado no puede ser null"))
    else Ok(set e | e in s.espacios && s.espacios[e].estado == estado.value)
  }

  /** buscarPorZona(zona): the zone must have text; it is then matched as given. */
  function BuscarPorZona(s: State, zona: Option<string>): (r: Result<set<nat>>)
    ensures !Presente(zona) <==> r.Err?
    ensures r.Ok? ==> forall e :: e in r.value <==> e in s.espacios && s.espacios[e].zona == zona.value
  {
    if !Presente(zona) then Err(IllegalArgument("La zona no puede estar vacía"))
    else Ok(set e | e in s.espacios && s.espacios[e].zona == zona.value)
  }

  /** buscarDisponibles(). */
  function BuscarDisponibles(s: State): set<nat>
  {
    BuscarPorEstado(s, Some(EstadoEspacio.DISPONIBLE)).value
  }

  /** buscarDisponibles returns exactly the spaces whose status is
      DISPONIBLE, whatever their activo flag. */
  lemma DisponiblesExactos(s: State)
    ensures forall e :: e in BuscarDisponibles(s) <==> e in s.espacios && s.espacios[e].estado == EstadoEspacio.DISPONIBLE
  {
  }

  /** A space that actualizar leaves RESERVADO or OCUPADO is not listed as
      available, and one that was RESERVADO or OCUPADO before stays unlisted. */
  lemma ActualizarNoLibera(s: State, id: nat, dto: EspacioDto)
    requires id in s.espacios && Protegido(s.espacios[id].estado)
    ensures id !in BuscarDisponibles(Actualizar(s, Some(id), dto).state)
  {
    ActualizarProtegeEstado(s, Some(id), dto);
  }
}
