/** SancionDetalleServiceImpl: the validation of a sanction detail, its
    creation linked to a stored sanction and rule, and the id guards of the
    other operations. */
module SancionDetalleService {
  import opened Common
  import opened Entities
  import Store

  /** SancionDetalleDto; the state travels as its enum name. */
  datatype SancionDetalleDto = SancionDetalleDto(
    sancionId: Option<nat>,
    reglaId: Option<nat>,
    descripcion: Option<string>,
    fechaSancion: Option<Time>,
    estado: Option<string>)

  const MSG_ID_NULL: string := "El ID no puede ser null"

  /** The names EstadoDetalle.valueOf accepts. */
  predicate EsNombreDeEstado(e: string)
  {
    e == "ACTIVO" || e == "RESUELTO" || e == "ANULADO"
  }

  function EstadoDe(e: string): EstadoDetalle
    requires EsNombreDeEstado(e)
  {
    if e == "ACTIVO" then EstadoDetalle.ACTIVO else if e == "RESUELTO" then EstadoDetalle.RESUELTO else EstadoDetalle.ANULADO
  }

  /** validarDatosSancionDetalle: the checks in their order. */
  function ValidarDatosSancionDetalle(dto: SancionDetalleDto): (r: Option<Error>)
    ensures r.None? <==>
      && dto.sancionId.Some? && dto.reglaId.Some? && dto.descripcion.Some?
      && 5 <= |Trim(dto.descripcion.value)| <= 500
      && dto.fechaSancion.Some? && dto.estado.Some? && EsNombreDeEstado(dto.estado.value)
    ensures r.Some? ==> r.value.IllegalArgument?
  {
    if dto.sancionId.None? then Some(IllegalArgument("El ID de la sanción no puede estar vacío"))
    else if dto.reglaId.None? then Some(IllegalArgument("El ID de la regla no puede estar vacío"))
    else if dto.descripcion.None? || Trim(dto.descripcion.value) == [] then Some(IllegalArgument("La descripción no puede estar vacía"))
    else if |Trim(dto.descripcion.value)| < 5 then Some(IllegalArgument("La descripción debe tener al menos 5 caracteres"))
    else if |Trim(dto.descripcion.value)| > 500 then Some(IllegalArgument("La descripción no puede tener más de 500 caracteres"))
    else if dto.fechaSancion.None? then Some(IllegalArgument("La fecha de sanción no puede estar vacía"))
    else if dto.estado.None? || (TrimEmpty(dto.estado.value); Trim(dto.estado.value) == []) then Some(IllegalArgument("El estado no puede estar vacío"))
    else if !EsNombreDeEstado(dto.estado.value) then Some(IllegalArgument("El estado debe ser ACTIVO, RESUELTO o ANULADO"))
    else None
  }

  // ------------------------------------------------------------------ crear

  /** The checks of crear in their order: the dto, then the sanction and the rule. */
  function ErrorAlCrear(s: State, dto: SancionDetalleDto): Option<Error>
  {
    if ValidarDatosSancionDetalle(dto).Some? then ValidarDatosSancionDetalle(dto)
    else if dto.sancionId.value !in s.sanciones then Some(EntityNotFound("Sanción no encontrada"))
    else if dto.reglaId.value !in s.reglas then Some(EntityNotFound("Regla no encontrada"))
    else None
  }

  /** The detail crear saves: the dto's fields, linked to its sanction and rule. */
  function DetalleNuevo(dto: SancionDetalleDto): SancionDetalle
    requires ValidarDatosSancionDetalle(dto).None?
  {
    SancionDetalle(dto.sancionId.value, dto.reglaId.value, dto.descripcion.value, dto.fechaSancion.value, EstadoDe(dto.estado.value))
  }

  /** The database after the save of crear. */
  function ConDetalle(s: State, dto: SancionDetalleDto): State
    requires ValidarDatosSancionDetalle(dto).None?
  {
    s.(detalles := s.detalles[s.nextId := DetalleNuevo(dto)], nextId := s.nextId + 1)
  }

  /** crear(dto); returns the id of the new detail. */
  function Crear(s: State, dto: SancionDetalleDto): Step<nat>
  {
    match ErrorAlCrear(s, dto)
    case Some(e) => Step(s, Err(e))
    case None => Step(ConDetalle(s, dto), Ok(s.nextId))
  }

  /** crear succeeds exactly when the dto is valid and names a stored sanction
      and a stored rule; it then adds one detail, linked to both, and changes
      nothing else; a failure changes nothing. */
  lemma CrearVincula(s: State, dto: SancionDetalleDto)
    ensures var st := Crear(s, dto);
      && (st.result.Ok? <==> ValidarDatosSancionDetalle(dto).None? && dto.sancionId.value in s.sanciones && dto.reglaId.value in s.reglas)
      && (st.result.Err? ==> st.state == s)
      && (st.result.Ok? ==>
            var id := st.result.value;
            && id == s.nextId && st.state.detalles == s.detalles[id := st.state.detalles[id]]
            && st.state.detalles[id].sancionId == dto.sancionId.value && st.state.detalles[id].sancionId in st.state.sanciones
            && st.state.detalles[id].reglaId == dto.reglaId.value && st.state.detalles[id].reglaId in st.state.reglas
            && st.state.detalles[id].descripcion == dto.descripcion.value
            && st.state.sanciones == s.sanciones && st.state.reglas == s.reglas)
  {
    if ErrorAlCrear(s, dto).None? {
      assert Crear(s, dto) == Step(ConDetalle(s, dto), Ok(s.nextId));
    }
  }

  /** crear keeps the database well formed: the new detail's id is fresh and
      its sanction is stored. */
  lemma CrearPreservaValido(s: State, dto: SancionDetalleDto)
    requires Valid(s)
    ensures Valid(Crear(s, dto).state)
    ensures Crear(s, dto).result.Ok? ==> Crear(s, dto).result.value !in s.detalles
  {
    if ErrorAlCrear(s, dto).None? {
      var t := ConDetalle(s, dto);
      assert Crear(s, dto).state == t;
      assert t.detalles[s.nextId].sancionId in s.sanciones;
      assert t.qrs == s.qrs && t.reservas == s.reservas && t.sanciones == s.sanciones;
      forall d | d in t.detalles
        ensures d < t.nextId && t.detalles[d].sancionId < t.nextId
      {
        if d != s.nextId {
          assert d in s.detalles && t.detalles[d] == s.detalles[d];
        }
      }
    }
  }

  method CrearEnBd(db: Store.Db, dto: SancionDetalleDto) returns (r: Result<nat>)
    modifies db`detalles, db`nextId
    ensures r == Crear(old(db.Snapshot()), dto).result
    ensures db.Snapshot() == Crear(old(db.Snapshot()), dto).state
  {
    ghost var s := db.Snapshot();
    var error := ErrorAlCrear(db.Snapshot(), dto);
    if error.Some? {
      return Err(error.value);
    }
    assert Crear(s, dto) == Step(ConDetalle(s, dto), Ok(s.nextId));
    var id := db.NuevoId();
    db.detalles := db.detalles[id := DetalleNuevo(dto)];
    assert db.Snapshot() == ConDetalle(s, dto);
    r := Ok(id);
  }

  // ------------------------------------------------------- the id guards

  /** The guards of actualizar and eliminar: a present id of a stored detail. */
  function ErrorDeId(s: State, id: Option<nat>): (r: Option<Error>)
    ensures r.None? <==> id.Some? && id.value in s.detalles
    ensures id.None? ==> r == Some(IllegalArgument(MSG_ID_NULL))
    ensures id.Some? && id.value !in s.detalles ==> r.Some? && r.value.EntityNotFound?
  {
    if id.None? then Some(IllegalArgument(MSG_ID_NULL))
    else if id.value !in s.detalles then Some(EntityNotFound("Detalle de sanción no encontrado con ID: " + NatToString(id.value)))
    else None
  }

  /** The entity actualizar hands to save: the dto's own fields and no sanction
      or rule link (the mapper does not copy them). */
  datatype DetalleSinVinculos = DetalleSinVinculos(
    id: nat, descripcion: string, fechaSancion: Time, estado: EstadoDetalle,
    sancion: Option<nat>, regla: Option<nat>)

  /** actualizar(id, dto) up to the save: the id guards come before the dto's
      validation, and the entity built keeps none of the links. */
  function Actualizar(s: State, id: Option<nat>, dto: SancionDetalleDto): (r: Result<DetalleSinVinculos>)
    ensures r.Ok? <==> ErrorDeId(s, id).None? && ValidarDatosSancionDetalle(dto).None?
    ensures r.Ok? ==> (r.value.id == id.value && r.value.sancion.None? && r.value.regla.None?
      && r.value.descripcion == dto.descripcion.value && r.value.estado == EstadoDe(dto.estado.value))
    ensures ErrorDeId(s, id).Some? ==> r == Err(ErrorDeId(s, id).value)
  {
    if ErrorDeId(s, id).Some? then Err(ErrorDeId(s, id).value)
    else if ValidarDatosSancionDetalle(dto).Some? then Err(ValidarDatosSancionDetalle(dto).value)
    else Ok(DetalleSinVinculos(id.value, dto.descripcion.value, dto.fechaSancion.value, EstadoDe(dto.estado.value), None, None))
  }

  /** eliminar(id). */
  function Eliminar(s: State, id: Option<nat>): Step<()>
  {
    match ErrorDeId(s, id)
    case Some(e) => Step(s, Err(e))
    case None => Step(s.(detalles := s.detalles - {id.value}), Ok(()))
  }

  /** eliminar removes exactly the named detail, or throws and changes nothing. */
  lemma EliminarQuitaUno(s: State, id: Option<nat>)
    ensures var st := Eliminar(s, id);
      && (st.result.Ok? <==> id.Some? && id.value in s.detalles)
      && (st.result.Err? ==> st.state == s)
      && (st.result.Ok? ==>
            && id.value !in st.state.detalles && st.state.detalles.Keys == s.detalles.Keys - {id.value}
            && (forall d :: d in st.state.detalles ==> st.state.detalles[d] == s.detalles[d])
            && st.state.sanciones == s.sanciones)
  {
  }

  method EliminarEnBd(db: Store.Db, id: Option<nat>) returns (r: Result<()>)
    modifies db`detalles
    ensures r == Eliminar(old(db.Snapshot()), id).result
    ensures db.Snapshot() == Eliminar(old(db.Snapshot()), id).state
  {
    var error := ErrorDeId(db.Snapshot(), id);
    if error.Some? {
      return Err(error.value);
    }
    db.detalles := db.detalles - {id.value};
    r := Ok(());
  }

  /** buscarPorSancion(sancionId): the ids of the sanction's details. */
  function BuscarPorSancion(s: State, sancionId: Option<nat>): (r: Result<set<nat>>)
    ensures sancionId.None? <==> r.Err?
    ensures r.Err? ==> r.error == IllegalArgument("El ID de la sanción no puede ser null")
    ensures r.Ok? ==> forall d :: d in r.value <==> d in s.detalles && s.detalles[d].sancionId == sancionId.value
  {
    if sancionId.None? then Err(IllegalArgument("El ID de la sanción no puede ser null"))
    else Ok(set d | d in s.detalles && s.detalles[d].sancionId == sancionId.value)
  }
}
