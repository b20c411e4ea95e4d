/** VehiculoServiceImpl: the plate format and the other field checks, the
    unique plate on creation and update, the field merge of actualizar, and
    the queries that hide inactive vehicles. */
module VehiculoService {
  import opened Common
  import opened Entities
  import Store

  /** VehiculoDto as crear and actualizar read it. */
  datatype VehiculoDto = VehiculoDto(
    placa: Option<string>,
    modelo: Option<string>,
    marca: Option<string>,
    color: Option<string>,
    tipo: Option<TipoVehiculo>,
    usuarioId: Option<nat>,
    activo: Option<bool>,
    fechaRegistro: Option<Time>)

  const MSG_ID_NULL: string := "El ID no puede ser null"
  const MSG_PLACA_DUPLICADA: string := "Ya existe un vehículo con esa placa"

  // ------------------------------------------------------------ validation

  /** The regular expression ^[A-Z]{3}[0-9]{3}$, matched against the whole
      plate: three ASCII capitals, then three ASCII digits. */
  predicate PlacaValida(placa: string)
  {
    && |placa| == 6
    && Mayuscula(placa[0]) && Mayuscula(placa[1]) && Mayuscula(placa[2])
    && Digito(placa[3]) && Digito(placa[4]) && Digito(placa[5])
  }

  /** [A-Z] */
  predicate Mayuscula(c: char)
  {
    'A' <= c <= 'Z'
  }

  /** [0-9] */
  predicate Digito(c: char)
  {
    '0' <= c <= '9'
  }

  /** A string field that is present and not empty once trimmed. */
  predicate Presente(x: Option<string>)
  {
    x.Some? && TieneTexto(x.value)
  }

  /** validarDatosVehiculo: the checks in their order. */
  function ValidarDatosVehiculo(dto: VehiculoDto): (r: Option<Error>)
    ensures r.None? <==>
      && dto.placa.Some? && PlacaValida(dto.placa.value)
      && Presente(dto.modelo) && Presente(dto.marca) && Presente(dto.color)
      && dto.tipo.Some? && dto.usuarioId.Some?
    ensures r.Some? ==> r.value.IllegalArgument?
  {
    if !Presente(dto.placa) then Some(IllegalArgument("La placa no puede estar vacía"))
    else if !PlacaValida(dto.placa.value) then Some(IllegalArgument("La placa debe tener el formato AAA000"))
    else if !Presente(dto.modelo) then Some(IllegalArgument("El modelo no puede estar vacío"))
    else if !Presente(dto.marca) then Some(IllegalArgument("La marca no puede estar vacía"))
    else if !Presente(dto.color) then Some(IllegalArgument("El color no puede estar vacío"))
    else if dto.tipo.None? then Some(IllegalArgument("El tipo de vehículo no puede estar vacío"))
    else if dto.usuarioId.None? then Some(IllegalArgument("El ID del usuario no puede estar vacío"))
    else None
  }

  /** A plate of the accepted format never trims to nothing, so the emptiness
      check never rejects it. */
  lemma PlacaValidaNoVacia(placa: string)
    requires PlacaValida(placa)
    ensures Presente(Some(placa))
  {
    assert placa[0] > ' ';
  }

  /** Every character of `s` is in [A-Z]. */
  predicate SoloMayusculas(s: string)
  {
    forall i :: 0 <= i < |s| ==> Mayuscula(s[i])
  }

  /** Every character of `s` is in [0-9]. */
  predicate SoloDigitos(s: string)
  {
    forall i :: 0 <= i < |s| ==> Digito(s[i])
  }

  /** The format read as the regular expression reads: exactly six characters,
      a block of three capitals followed by a block of three digits. So no
      valid plate has a letter where a digit goes or the other way round. */
  lemma PlacaFormato(placa: string)
    ensures PlacaValida(placa) <==> |placa| == 6 && SoloMayusculas(placa[..3]) && SoloDigitos(placa[3..])
  {
    if |placa| == 6 && SoloMayusculas(placa[..3]) && SoloDigitos(placa[3..]) {
      assert placa[..3][0] == placa[0] && placa[..3][1] == placa[1] && placa[..3][2] == placa[2];
      assert placa[3..][0] == placa[3] && placa[3..][1] == placa[4] && placa[3..][2] == placa[5];
    }
    if PlacaValida(placa) {
      forall i | 0 <= i < 3 ensures Mayuscula(placa[..3][i]) {
        assert placa[..3][i] == placa[i];
      }
      forall i | 0 <= i < 3 ensures Digito(placa[3..][i]) {
        assert placa[3..][i] == placa[3 + i];
      }
    }
  }

  // ------------------------------------------------------------ lookups

  /** existsByPlaca */
  predicate PlacaEnUso(s: State, placa: string)
  {
    exists v :: v in s.vehiculos && s.vehiculos[v].placa == placa
  }

  /** findByPlaca finds a vehicle other than `id`. */
  predicate PlacaDeOtro(s: State, placa: string, id: nat)
  {
    exists v :: v in s.vehiculos && s.vehiculos[v].placa == placa && v != id
  }

  /** The unique constraint on the plate. */
  ghost predicate PlacasUnicas(s: State)
  {
    forall v1, v2 :: v1 in s.vehiculos && v2 in s.vehiculos && s.vehiculos[v1].placa == s.vehiculos[v2].placa ==> v1 == v2
  }

  function UsuarioNoEncontrado(usuarioId: nat): Error
  {
    EntityNotFound("Usuario no encontrado con ID: " + NatToString(usuarioId))
  }

  // ------------------------------------------------------------------ crear

  /** The checks of crear in their order. */
  function ErrorAlCrear(s: State, dto: VehiculoDto): Option<Error>
  {
    if ValidarDatosVehiculo(dto).Some? then ValidarDatosVehiculo(dto)
    else if PlacaEnUso(s, dto.placa.value) then Some(Runtime(MSG_PLACA_DUPLICADA))
    else if dto.usuarioId.value !in s.usuarios then Some(UsuarioNoEncontrado(dto.usuarioId.value))
    else None
  }

  /** The vehicle crear saves: the dto's fields, owned by its user; the
      registration date defaults to `now` and activo to true. */
  function VehiculoNuevo(dto: VehiculoDto, now: Time): Vehiculo
    requires ValidarDatosVehiculo(dto).None?
  {
    Vehiculo(dto.placa.value, dto.modelo.value, dto.marca.value, dto.color.value, dto.tipo.value,
      dto.usuarioId.value, if dto.activo.Some? then dto.activo.value else true,
      if dto.fechaRegistro.Some? then dto.fechaRegistro.value else now)
  }

  /** crear(dto); the clock reads `now` when the row is persisted. */
  function Crear(s: State, dto: VehiculoDto, now: Time): Step<nat>
  {
    match ErrorAlCrear(s, dto)
    case Some(e) => Step(s, Err(e))
    case None => Step(s.(vehiculos := s.vehiculos[s.nextId := VehiculoNuevo(dto, now)], nextId := s.nextId + 1), Ok(s.nextId))
  }

  /** crear succeeds exactly when the dto is valid, its plate is unused and its
      user exists; it then adds one vehicle with the defaults filled in, and a
      refusal saves nothing. */
  lemma CrearSii(s: State, dto: VehiculoDto, now: Time)
    ensures var st := Crear(s, dto, now);
      && (st.result.Ok? <==>
            ValidarDatosVehiculo(dto).None? && !PlacaEnUso(s, dto.placa.value) && dto.usuarioId.value in s.usuarios)
      && (ValidarDatosVehiculo(dto).None? && PlacaEnUso(s, dto.placa.value) ==> st.result == Err(Runtime(MSG_PLACA_DUPLICADA)))
      && (st.result.Err? ==> st.state == s)
      && (st.result.Ok? ==>
            var v := st.state.vehiculos[st.result.value];
            && st.result.value == s.nextId
            && st.state == s.(vehiculos := s.vehiculos[s.nextId := v], nextId := s.nextId + 1)
            && PlacaValida(v.placa) && v.placa == dto.placa.value && v.usuarioId == dto.usuarioId.value
            && v.usuarioId in st.state.usuarios
            && v.activo == (dto.activo != Some(false))
            && v.fechaRegistro == (if dto.fechaRegistro.Some? then dto.fechaRegistro.value else now))
  {
    if ErrorAlCrear(s, dto).None? {
      var v := VehiculoNuevo(dto, now);
      assert Crear(s, dto, now) == Step(s.(vehiculos := s.vehiculos[s.nextId := v], nextId := s.nextId + 1), Ok(s.nextId));
    } else {
      assert Crear(s, dto, now) == Step(s, Err(ErrorAlCrear(s, dto).value));
    }
  }

  /** crear keeps plates unique. */
  lemma CrearPlacasUnicas(s: State, dto: VehiculoDto, now: Time)
    requires PlacasUnicas(s)
    ensures PlacasUnicas(Crear(s, dto, now).state)
  {
    if ErrorAlCrear(s, dto).None? {
      var n := VehiculoNuevo(dto, now);
      assert Crear(s, dto, now).state.vehiculos == s.vehiculos[s.nextId := n];
      forall v | v in s.vehiculos ensures s.vehiculos[v].placa != n.placa {
      }
    }
  }

  method CrearEnBd(db: Store.Db, dto: VehiculoDto, now: Time) returns (r: Result<nat>)
    modifies db`vehiculos, db`nextId
    ensures r == Crear(old(db.Snapshot()), dto, now).result
    ensures db.Snapshot() == Crear(old(db.Snapshot()), dto, now).state
  {
    var error := ErrorAlCrear(db.Snapshot(), dto);
    if error.Some? {
      return Err(error.value);
    }
    var vehiculo := Vehiculo(dto.placa.value, dto.modelo.value, dto.marca.value, dto.color.value, dto.tipo.value,
      dto.usuarioId.value, true, now);
    if dto.activo.Some? {
      vehiculo := vehiculo.(activo := dto.activo.value);
    }
    if dto.fechaRegistro.Some? {
      vehiculo := vehiculo.(fechaRegistro := dto.fechaRegistro.value);
    }
    assert vehiculo == VehiculoNuevo(dto, now);
    var id := db.NuevoId();
    db.vehiculos := db.vehiculos[id := vehiculo];
    r := Ok(id);
  }

  // ------------------------------------------------------------- actualizar

  /** The checks of actualizar in their order: the id and its row come before
      the dto. */
  function ErrorAlActualizar(s: State, id: Option<nat>, dto: VehiculoDto): (r: Option<Error>)
    ensures r.None? ==> id.Some? && id.value in s.vehiculos && ValidarDatosVehiculo(dto).None?
  {
    if id.None? then Some(IllegalArgument(MSG_ID_NULL))
    else if id.value !in s.vehiculos then Some(EntityNotFound("Vehículo no encontrado con ID: " + NatToString(id.value)))
    else if ValidarDatosVehiculo(dto).Some? then ValidarDatosVehiculo(dto)
    else if PlacaDeOtro(s, dto.placa.value, id.value) then Some(Runtime(MSG_PLACA_DUPLICADA))
    else if dto.usuarioId.value !in s.usuarios then Some(UsuarioNoEncontrado(dto.usuarioId.value))
    else None
  }

  /** The vehicle actualizar saves over `existente`: plate, model, brand,
      colour, kind and owner from the dto; activo and the registration date
      only when the dto carries them. */
  function VehiculoActualizado(existente: Vehiculo, dto: VehiculoDto): Vehiculo
    requires ValidarDatosVehiculo(dto).None?
  {
    Vehiculo(dto.placa.value, dto.modelo.value, dto.marca.value, dto.color.value, dto.tipo.value,
      dto.usuarioId.value,
      if dto.activo.Some? then dto.activo.value else existente.activo,
      if dto.fechaRegistro.Some? then dto.fechaRegistro.value else existente.fechaRegistro)
  }

  /** actualizar(id, dto). */
  function Actualizar(s: State, id: Option<nat>, dto: VehiculoDto): Step<nat>
  {
    match ErrorAlActualizar(s, id, dto)
    case Some(e) => Step(s, Err(e))
    case None => Step(s.(vehiculos := s.vehiculos[id.value := VehiculoActualizado(s.vehiculos[id.value], dto)]), Ok(id.value))
  }

  /** actualizar refuses a plate held by another vehicle but lets a vehicle
      keep its own; on success only that vehicle changes, with the dto's
      fields and, where the dto is silent, the stored activo and date. */
  lemma ActualizarConserva(s: State, id: Option<nat>, dto: VehiculoDto)
    ensures var st := Actualizar(s, id, dto);
      && (id.None? ==> st.result == Err(IllegalArgument(MSG_ID_NULL)))
      && (id.Some? && id.value !in s.vehiculos ==> st.result.Err? && st.result.error.EntityNotFound?)
      && (st.result.Err? ==> st.state == s)
      && (id.Some? && id.value in s.vehiculos && ValidarDatosVehiculo(dto).None? ==>
            && (PlacaDeOtro(s, dto.placa.value, id.value) ==> st.result == Err(Runtime(MSG_PLACA_DUPLICADA)))
            && ((!PlacaDeOtro(s, dto.placa.value, id.value) && dto.usuarioId.value in s.usuarios) ==> st.result.Ok?))
      && (st.result.Ok? ==>
            var original := s.vehiculos[id.value];
            var nuevo := st.state.vehiculos[id.value];
            && id.Some? && id.value in s.vehiculos && st.result.value == id.value
            && st.state == s.(vehiculos := s.vehiculos[id.value := nuevo])
            && nuevo.placa == dto.placa.value && PlacaValida(nuevo.placa) && !PlacaDeOtro(s, nuevo.placa, id.value)
            && nuevo.modelo == dto.modelo.value && nuevo.marca == dto.marca.value && nuevo.color == dto.color.value
            && nuevo.tipo == dto.tipo.value && nuevo.usuarioId == dto.usuarioId.value && nuevo.usuarioId in s.usuarios
            && nuevo.activo == (if dto.activo.Some? then dto.activo.value else original.activo)
            && nuevo.fechaRegistro == (if dto.fechaRegistro.Some? then dto.fechaRegistro.value else original.fechaRegistro))
  {
  }

  /** A vehicle may be updated keeping its own plate. */
  lemma ActualizarMismaPlaca(s: State, id: nat, dto: VehiculoDto)
    requires PlacasUnicas(s)
    requires id in s.vehiculos && ValidarDatosVehiculo(dto).None? && dto.usuarioId.value in s.usuarios
    requires dto.placa.value == s.vehiculos[id].placa
    ensures Actualizar(s, Some(id), dto).result == Ok(id)
  {
  }

  /** actualizar keeps plates unique. */
  lemma ActualizarPlacasUnicas(s: State, id: Option<nat>, dto: VehiculoDto)
    requires PlacasUnicas(s)
    ensures PlacasUnicas(Actualizar(s, id, dto).state)
  {
    if ErrorAlActualizar(s, id, dto).None? {
      var n := VehiculoActualizado(s.vehiculos[id.value], dto);
      assert Actualizar(s, id, dto).state.vehiculos == s.vehiculos[id.value := n];
      assert !PlacaDeOtro(s, n.placa, id.value);
      forall v | v in s.vehiculos && v != id.value ensures s.vehiculos[v].placa != n.placa {
      }
    }
  }

  method ActualizarEnBd(db: Store.Db, id: Option<nat>, dto: VehiculoDto) returns (r: Result<nat>)
    modifies db`vehiculos
    ensures r == Actualizar(old(db.Snapshot()), id, dto).result
    ensures db.Snapshot() == Actualizar(old(db.Snapshot()), id, dto).state
  {
    var error := ErrorAlActualizar(db.Snapshot(), id, dto);
    if error.Some? {
      return Err(error.value);
    }
    var vehiculo := db.vehiculos[id.value];
    vehiculo := vehiculo.(placa := dto.placa.value, modelo := dto.modelo.value, marca := dto.marca.value);
    vehiculo := vehiculo.(color := dto.color.value, tipo := dto.tipo.value, usuarioId := dto.usuarioId.value);
    if dto.activo.Some? {
      vehiculo := vehiculo.(activo := dto.activo.value);
    }
    if dto.fechaRegistro.Some? {
      vehiculo := vehiculo.(fechaRegistro := dto.fechaRegistro.value);
    }
    db.vehiculos := db.vehiculos[id.value := vehiculo];
    r := Ok(id.value);
  }

  // --------------------------------------------------------------- eliminar

  /** eliminar(id). */
  function Eliminar(s: State, id: Option<nat>): (st: Step<()>)
  {
    if id.None? then Step(s, Err(IllegalArgument(MSG_ID_NULL)))
    else if id.value !in s.vehiculos then Step(s, Err(EntityNotFound("Vehículo no encontrado con ID: " + NatToString(id.value))))
    else Step(s.(vehiculos := s.vehiculos - {id.value}), Ok(()))
  }

  /** eliminar removes exactly the named vehicle, or throws and changes nothing. */
  lemma EliminarQuitaUno(s: State, id: Option<nat>)
    ensures var st := Eliminar(s, id);
      && (st.result.Ok? <==> id.Some? && id.value in s.vehiculos)
      && (st.result.Err? ==> st.state == s)
      && (st.result.Ok? ==>
            && st.state.vehiculos.Keys == s.vehiculos.Keys - {id.value}
            && (forall v :: v in st.state.vehiculos ==> st.state.vehiculos[v] == s.vehiculos[v])
            && st.state == s.(vehiculos := st.state.vehiculos))
  {
  }

  // ---------------------------------------------------------------- queries

  /** buscarTodosPorUsuario(usuarioId): all the user's vehicles. */
  function BuscarTodosPorUsuario(s: State, usuarioId: Option<nat>): (r: Result<set<nat>>)
    ensures usuarioId.None? <==> r.Err?
  {
    if usuarioId.None? then Err(IllegalArgument("El ID del usuario no puede ser null"))
    else Ok(set v | v in s.vehiculos && s.vehiculos[v].usuarioId == usuarioId.value)
  }

  /** buscarPorUsuario(usuarioId): the user's active vehicles. */
  function BuscarPorUsuario(s: State, usuarioId: Option<nat>): (r: Result<set<nat>>)
    ensures usuarioId.None? <==> r.Err?
  {
    if usuarioId.None? then Err(IllegalArgument("El ID del usuario no puede ser null"))
    else Ok(set v | v in s.vehiculos && s.vehiculos[v].usuarioId == usuarioId.value && s.vehiculos[v].activo)
  }

  /** buscarPorTipo(tipo): the active vehicles of that kind. */
  function BuscarPorTipo(s: State, tipo: Option<TipoVehiculo>): (r: Result<set<nat>>)
    ensures tipo.None? <==> r.Err?
  {
    if tipo.None? then Err(IllegalArgument("El tipo de vehículo no puede ser null"))
    else Ok(set v | v in s.vehiculos && s.vehiculos[v].tipo == tipo.value && s.vehiculos[v].activo)
  }

  /** buscarPorUsuario and buscarPorTipo return active vehicles only:
      buscarPorUsuario is exactly buscarTodosPorUsuario without the inactive
      ones, and buscarPorTipo is exactly the active vehicles of that kind. */
  lemma SoloActivos(s: State, usuarioId: nat, tipo: TipoVehiculo)
    ensures var todos := BuscarTodosPorUsuario(s, Some(usuarioId)).value;
      var activos := BuscarPorUsuario(s, Some(usuarioId)).value;
      && activos <= todos
      && (forall v :: v in todos - activos <==> v in todos && !s.vehiculos[v].activo)
      && (forall v :: v in activos ==> s.vehiculos[v].activo && s.vehiculos[v].usuarioId == usuarioId)
    ensures var r := BuscarPorTipo(s, Some(tipo)).value;
      forall v :: v in r <==> v in s.vehiculos && s.vehiculos[v].activo && s.vehiculos[v].tipo == tipo
  {
  }
}
