/** ReglasEstacionamientoServiceImpl: the rule checks, the search by fault
    kind, and procesarInfraccion, which records an infraction against the
    first rule of the matching kind with one sanction and one detail, outside
    the suspension check and the punishment table of SancionService. */
module ReglaService {
  import opened Common
  import opened Entities
  import Store
  import SancionService
  import SancionController

  /** ReglasEstacionamientoDto */
  datatype ReglaDto = ReglaDto(descripcion: Option<string>, tipoFalta: Option<TipoFalta>)

  const MSG_ID_NULL: string := "El ID no puede ser null"

  /** TipoFalta.name() */
  function NombreFalta(t: TipoFalta): string
  {
    match t
    case LEVE => "LEVE"
    case GRAVE => "GRAVE"
  }

  function NoEncontrada(id: nat): Error
  {
    EntityNotFound("Regla no encontrada con id: " + NatToString(id))
  }

  // ------------------------------------------------------------ validation

  /** validarDatosRegla: the checks in their order. The last one, that the
      kind is LEVE or GRAVE, cannot fail: the enumeration has no other value. */
  function ValidarDatosRegla(dto: ReglaDto): (r: Option<Error>)
    ensures r.None? <==>
      dto.descripcion.Some? && 5 <= |Trim(dto.descripcion.value)| <= 255 && dto.tipoFalta.Some?
    ensures r.Some? ==> r.value.IllegalArgument?
  {
    if dto.descripcion.None? then Some(IllegalArgument("La descripción no puede estar vacía"))
    else
    var largo := |Trim(dto.descripcion.value)|;
    if largo == 0 then Some(IllegalArgument("La descripción no puede estar vacía"))
    else if largo < 5 then Some(IllegalArgument("La descripción debe tener al menos 5 caracteres"))
    else if largo > 255 then Some(IllegalArgument("La descripción no puede tener más de 255 caracteres"))
    else if dto.tipoFalta.None? then Some(IllegalArgument("El tipo de falta no puede estar vacío"))
    else if NombreFalta(dto.tipoFalta.value) != "LEVE" && NombreFalta(dto.tipoFalta.value) != "GRAVE" then
      Some(IllegalArgument("El tipo de falta debe ser LEVE o GRAVE"))
    else None
  }

  // ------------------------------------------------- crear, actualizar, eliminar

  /** crear(dto): the rule is stored with its description as given. */
  function Crear(s: State, dto: ReglaDto): Step<nat>
  {
    match ValidarDatosRegla(dto)
    case Some(e) => Step(s, Err(e))
    case None =>
      Step(s.(reglas := s.reglas[s.nextId := Regla(dto.descripcion.value, dto.tipoFalta.value)], nextId := s.nextId + 1), Ok(s.nextId))
  }

  /** actualizar(id, dto): the id and its row are checked before the dto; the
      rule is then replaced by the dto's. */
  function Actualizar(s: State, id: Option<nat>, dto: ReglaDto): Step<nat>
  {
    if id.None? then Step(s, Err(IllegalArgument(MSG_ID_NULL)))
    else if id.value !in s.reglas then Step(s, Err(NoEncontrada(id.value)))
    else match ValidarDatosRegla(dto)
      case Some(e) => Step(s, Err(e))
      case None => Step(s.(reglas := s.reglas[id.value := Regla(dto.descripcion.value, dto.tipoFalta.value)]), Ok(id.value))
  }

  /** eliminar(id). */
  function Eliminar(s: State, id: Option<nat>): Step<()>
  {
    if id.None? then Step(s, Err(IllegalArgument(MSG_ID_NULL)))
    else if id.value !in s.reglas then Step(s, Err(NoEncontrada(id.value)))
    else Step(s.(reglas := s.reglas - {id.value}), Ok(()))
  }

  /** crear stores a rule exactly when the dto is valid, under a fresh id,
      with the dto's description and kind, and saves nothing on a refusal. */
  lemma CrearSii(s: State, dto: ReglaDto)
    ensures var st := Crear(s, dto);
      && (st.result.Ok? <==> ValidarDatosRegla(dto).None?)
      && (st.result.Err? ==> st.state == s)
      && (st.result.Ok? ==>
            && st.result.value == s.nextId
            && st.state == s.(reglas := s.reglas[s.nextId := Regla(dto.descripcion.value, dto.tipoFalta.value)], nextId := s.nextId + 1)
            && 5 <= |Trim(st.state.reglas[s.nextId].descripcion)| <= 255)
  {
    var e := ValidarDatosRegla(dto);
    if e.None? {
      var d := dto.descripcion.value;
      assert 5 <= |Trim(d)| <= 255;
      assert Crear(s, dto).state.reglas[s.nextId].descripcion == d;
    }
  }

  /** actualizar replaces a stored rule exactly when the id is given, names a
      stored rule and the dto is valid; a null id is refused first; nothing
      is saved on a refusal and no other rule changes. */
  lemma ActualizarSii(s: State, id: Option<nat>, dto: ReglaDto)
    ensures var st := Actualizar(s, id, dto);
      && (st.result.Ok? <==> id.Some? && id.value in s.reglas && ValidarDatosRegla(dto).None?)
      && (id.None? ==> st.result == Err(IllegalArgument(MSG_ID_NULL)))
      && (id.Some? && id.value !in s.reglas ==> st.result == Err(NoEncontrada(id.value)))
      && (st.result.Err? ==> st.state == s)
      && (st.result.Ok? ==>
            st.state == s.(reglas := s.reglas[id.value := Regla(dto.descripcion.value, dto.tipoFalta.value)]))
  {
  }

  /** eliminar removes exactly the named rule when it is stored, and saves
      nothing otherwise. */
  lemma EliminarSii(s: State, id: Option<nat>)
    ensures var st := Eliminar(s, id);
      && (st.result.Ok? <==> id.Some? && id.value in s.reglas)
      && (st.result.Err? ==> st.state == s)
      && (st.result.Ok? ==>
            && st.state.reglas.Keys == s.reglas.Keys - {id.value}
            && (forall k :: k in st.state.reglas ==> st.state.reglas[k] == s.reglas[k])
            && st.state == s.(reglas := st.state.reglas))
  {
  }

  // ---------------------------------------------------------------- queries

  /** The rule's kind, lowercased, contains the lowercased query. */
  predicate CoincideTipo(r: Regla, consulta: string)
  {
    Contains(ToLower(NombreFalta(r.tipoFalta)), ToLower(consulta))
  }

  /** buscarPorTipo(tipo): a query without text is refused; otherwise the
      rules whose kind name contains the query, ignoring case. */
  function BuscarPorTipo(s: State, tipo: Option<string>): (r: Result<set<nat>>)
    ensures r.Err? <==> tipo.None? || !TieneTexto(tipo.value)
    ensures r.Ok? ==> r.value <= s.reglas.Keys
  {
    if tipo.None? || !TieneTexto(tipo.value) then Err(IllegalArgument("El tipo no puede estar vacío"))
    else Ok(set k | k in s.reglas && CoincideTipo(s.reglas[k], tipo.value))
  }

  /** buscarActivas(): every rule (rules have no active flag). */
  function BuscarActivas(s: State): (r: set<nat>)
    ensures r == s.reglas.Keys
  {
    set k | k in s.reglas
  }

  /** The rules of the kind `t`. */
  function ReglasDeTipo(s: State, t: TipoFalta): set<nat>
  {
    set k | k in s.reglas && s.reglas[k].tipoFalta == t
  }

  /** Which kind names contain "leve" and "e", lowercased. */
  lemma NombresContienen()
    ensures CoincideTipo(Regla("", LEVE), "leve") && !CoincideTipo(Regla("", GRAVE), "leve")
    ensures CoincideTipo(Regla("", LEVE), "e") && CoincideTipo(Regla("", GRAVE), "e")
  {
    assert ToLower("LEVE") == "leve";
    assert ToLower("GRAVE") == "grave";
    assert ToLower("leve") == "leve";
    assert ToLower("e") == "e";
    ContainsSelf("leve");
    assert !Contains("grave", "leve") by {
      forall i | 0 <= i <= |"grave"| - |"leve"| ensures !OccursAt("grave", "leve", i) {
        assert "grave"[i..i + 4][0] == "grave"[i];
      }
    }
    assert OccursAt("leve", "e", 1);
    ContainsAt("leve", "e", 1);
    assert OccursAt("grave", "e", 4);
    ContainsAt("grave", "e", 4);
  }

  /** Searching is by substring: "leve" finds exactly the LEVE rules. */
  lemma BuscarLeve(s: State)
    ensures BuscarPorTipo(s, Some("leve")) == Ok(ReglasDeTipo(s, LEVE))
  {
    assert TieneTexto("leve") by { assert "leve"[0] > ' '; }
    NombresContienen();
    forall k | k in s.reglas
      ensures CoincideTipo(s.reglas[k], "leve") <==> s.reglas[k].tipoFalta == LEVE
    {
      assert CoincideTipo(s.reglas[k], "leve") == CoincideTipo(Regla("", s.reglas[k].tipoFalta), "leve");
    }
    assert BuscarPorTipo(s, Some("leve")).value == ReglasDeTipo(s, LEVE);
  }

  /** "e", present in both kind names, finds every rule. */
  lemma BuscarE(s: State)
    ensures BuscarPorTipo(s, Some("e")) == Ok(BuscarActivas(s))
  {
    assert TieneTexto("e") by { assert "e"[0] > ' '; }
    NombresContienen();
    forall k | k in s.reglas
      ensures CoincideTipo(s.reglas[k], "e")
    {
      assert CoincideTipo(s.reglas[k], "e") == CoincideTipo(Regla("", s.reglas[k].tipoFalta), "e");
    }
    assert BuscarPorTipo(s, Some("e")).value == BuscarActivas(s);
  }

  // ------------------------------------------------------ procesarInfraccion

  /** The rule's kind name equals the infraction type, ignoring case; a null
      type matches nothing. */
  predicate Coincide(reglas: map<nat, Regla>, k: nat, tipoInfraccion: Option<string>)
  {
    k in reglas && tipoInfraccion.Some? && EqualsIgnoreCase(NombreFalta(reglas[k].tipoFalta), tipoInfraccion.value)
  }

  /** `orden` is findAll(): every stored rule, in the repository's order. */
  predicate EsListado(reglas: map<nat, Regla>, orden: seq<nat>)
  {
    && (forall i :: 0 <= i < |orden| ==> orden[i] in reglas)
    && (forall k :: k in reglas ==> k in orden)
  }

  /** The position of the first rule of `orden` that matches, if any (the
      stream's filter and findFirst). */
  function PrimeraCoincidencia(reglas: map<nat, Regla>, orden: seq<nat>, tipoInfraccion: Option<string>): (r: Option<nat>)
    ensures r.None? <==> forall i :: 0 <= i < |orden| ==> !Coincide(reglas, orden[i], tipoInfraccion)
    ensures r.Some? ==>
      && r.value < |orden| && Coincide(reglas, orden[r.value], tipoInfraccion)
      && forall j :: 0 <= j < r.value ==> !Coincide(reglas, orden[j], tipoInfraccion)
    decreases |orden|
  {
    if orden == [] then None
    else if Coincide(reglas, orden[0], tipoInfraccion) then Some(0)
    else
      match PrimeraCoincidencia(reglas, orden[1..], tipoInfraccion)
      case None => None
      case Some(i) => Some(i + 1)
  }

  function TextoDe(x: Option<string>): string
  {
    if x.Some? then x.value else "null"
  }

  /** The sanction procesarInfraccion saves: ACTIVA, the description as its
      reason, registered at `now`, with no punishment, no window and no author. */
  function SancionDeInfraccion(usuarioId: nat, vehiculoId: nat, descripcion: string, now: Time): Sancion
  {
    Sancion(usuarioId, vehiculoId, descripcion, EstadoSancion.ACTIVA, now, None, None, None, None, None, None)
  }

  /** procesarInfraccion(usuario, vehiculo, espacio, tipoInfraccion,
      descripcion), with `orden` the rules as findAll lists them; the clock
      reads `now` for the sanction and `now2` for the detail. The space is not
      used. */
  function ProcesarInfraccion(s: State, orden: seq<nat>, usuarioId: nat, vehiculoId: nat,
    tipoInfraccion: Option<string>, descripcion: string, now: Time, now2: Time): Step<()>
  {
    match PrimeraCoincidencia(s.reglas, orden, tipoInfraccion)
    case None => Step(s, Err(IllegalArgument("No existe una regla para la infracción: " + TextoDe(tipoInfraccion))))
    case Some(i) =>
      var sid := s.nextId;
      Step(s.(sanciones := s.sanciones[sid := SancionDeInfraccion(usuarioId, vehiculoId, descripcion, now)],
              detalles := s.detalles[sid + 1 := SancionDetalle(sid, orden[i], descripcion, now2, EstadoDetalle.ACTIVO)],
              nextId := sid + 2),
           Ok(()))
  }

  /** procesarInfraccion fails, saving nothing, exactly when no stored
      rule's kind matches the type, and names the type (or "null") in the
      message. */
  lemma ProcesarSii(s: State, orden: seq<nat>, usuarioId: nat, vehiculoId: nat,
    tipoInfraccion: Option<string>, descripcion: string, now: Time, now2: Time)
    requires EsListado(s.reglas, orden)
    ensures var st := ProcesarInfraccion(s, orden, usuarioId, vehiculoId, tipoInfraccion, descripcion, now, now2);
      && (st.result.Ok? <==> exists k :: Coincide(s.reglas, k, tipoInfraccion))
      && (st.result.Err? ==>
            st.state == s && st.result.error == IllegalArgument("No existe una regla para la infracción: " + TextoDe(tipoInfraccion)))
  {
    if PrimeraCoincidencia(s.reglas, orden, tipoInfraccion).Some? {
      var i := PrimeraCoincidencia(s.reglas, orden, tipoInfraccion).value;
      assert Coincide(s.reglas, orden[i], tipoInfraccion);
    }
  }

  /** On success procesarInfraccion saves exactly one ACTIVA sanction, with
      the description as its reason and without any punishment or window,
      and one ACTIVO detail linked to that sanction and to the first rule in
      the listing order whose kind matches; nothing else changes. */
  lemma ProcesarGuarda(s: State, orden: seq<nat>, usuarioId: nat, vehiculoId: nat,
    tipoInfraccion: Option<string>, descripcion: string, now: Time, now2: Time)
    requires ProcesarInfraccion(s, orden, usuarioId, vehiculoId, tipoInfraccion, descripcion, now, now2).result.Ok?
    ensures exists i :: (0 <= i < |orden| && Coincide(s.reglas, orden[i], tipoInfraccion)
      && (forall j :: 0 <= j < i ==> !Coincide(s.reglas, orden[j], tipoInfraccion))
      && ProcesarInfraccion(s, orden, usuarioId, vehiculoId, tipoInfraccion, descripcion, now, now2).state ==
           s.(sanciones := s.sanciones[s.nextId := Sancion(usuarioId, vehiculoId, descripcion, EstadoSancion.ACTIVA, now, None, None, None, None, None, None)],
              detalles := s.detalles[s.nextId + 1 := SancionDetalle(s.nextId, orden[i], descripcion, now2, EstadoDetalle.ACTIVO)],
              nextId := s.nextId + 2))
  {
    var i := PrimeraCoincidencia(s.reglas, orden, tipoInfraccion).value;
    assert Coincide(s.reglas, orden[i], tipoInfraccion);
  }

  /** procesarInfraccion does not consult the suspension check: a suspended
      user, whom crearConRegistrador refuses, is still sanctioned here. */
  lemma ProcesarIgnoraSuspension(s: State, orden: seq<nat>, usuarioId: nat, vehiculoId: nat, k: nat,
    tipoInfraccion: Option<string>, descripcion: string, now: Time, now2: Time,
    dto: SancionService.SancionDto, mes: Duration)
    requires EsListado(s.reglas, orden) && Coincide(s.reglas, k, tipoInfraccion)
    requires SancionService.Suspendido(s.sanciones, usuarioId, now) && dto.usuarioId == Some(usuarioId)
    ensures ProcesarInfraccion(s, orden, usuarioId, vehiculoId, tipoInfraccion, descripcion, now, now2).result.Ok?
    ensures SancionService.CrearConRegistrador(s, dto, None, now, now2, mes).result.Err?
  {
    ProcesarSii(s, orden, usuarioId, vehiculoId, tipoInfraccion, descripcion, now, now2);
    SancionService.CrearRechazaSuspendido(s, dto, None, now, now2, mes);
  }

  /** procesarInfraccion does not consult the punishment table: whatever the
      user's count of previous offences, the sanction carries no punishment
      and no window, and the user's activo flag is left as it was; yet the
      sanction counts as a previous offence of the rule's kind from then on. */
  lemma ProcesarSinEscalado(s: State, orden: seq<nat>, usuarioId: nat, vehiculoId: nat,
    tipoInfraccion: Option<string>, descripcion: string, now: Time, now2: Time, i: nat)
    requires Valid(s) && PrimeraCoincidencia(s.reglas, orden, tipoInfraccion) == Some(i)
    ensures var t := ProcesarInfraccion(s, orden, usuarioId, vehiculoId, tipoInfraccion, descripcion, now, now2).state;
      var tipo := s.reglas[orden[i]].tipoFalta;
      && s.nextId in t.sanciones && t.sanciones[s.nextId].tipoCastigo.None?
      && t.sanciones[s.nextId].fechaFinSuspension.None?
      && t.usuarios == s.usuarios && t.vehiculos == s.vehiculos
      && SancionService.SancionesReincidentes(t, usuarioId, tipo) == SancionService.SancionesReincidentes(s, usuarioId, tipo) + {s.nextId}
  {
    var x := SancionDeInfraccion(usuarioId, vehiculoId, descripcion, now);
    var t := s.(sanciones := s.sanciones[s.nextId := x],
                detalles := s.detalles[s.nextId + 1 := SancionDetalle(s.nextId, orden[i], descripcion, now2, EstadoDetalle.ACTIVO)],
                nextId := s.nextId + 2);
    assert ProcesarInfraccion(s, orden, usuarioId, vehiculoId, tipoInfraccion, descripcion, now, now2).state == t;
    assert orden[i] in s.reglas;
    SancionController.AnadirConDetalleCuenta(s, t, usuarioId, orden[i], descripcion, now2, s.reglas[orden[i]].tipoFalta);
  }

  // ------------------------------------------------------------ on the tables

  /** crear against the repository. */
  method CrearEnBd(db: Store.Db, dto: ReglaDto) returns (r: Result<nat>)
    modifies db`reglas, db`nextId
    ensures r == Crear(old(db.Snapshot()), dto).result
    ensures db.Snapshot() == Crear(old(db.Snapshot()), dto).state
  {
    ghost var st := Crear(db.Snapshot(), dto);
    var error := ValidarDatosRegla(dto);
    if error.Some? {
      assert st == Step(db.Snapshot(), Err(error.value));
      return Err(error.value);
    }
    assert st.state == db.Snapshot().(reglas := db.reglas[db.nextId := Regla(dto.descripcion.value, dto.tipoFalta.value)], nextId := db.nextId + 1);
    var id := db.NuevoId();
    db.reglas := db.reglas[id := Regla(dto.descripcion.value, dto.tipoFalta.value)];
    r := Ok(id);
    assert st == Step(db.Snapshot(), r);
  }

  /** actualizar against the repository. */
  method ActualizarEnBd(db: Store.Db, id: Option<nat>, dto: ReglaDto) returns (r: Result<nat>)
    modifies db`reglas
    ensures r == Actualizar(old(db.Snapshot()), id, dto).result
    ensures db.Snapshot() == Actualizar(old(db.Snapshot()), id, dto).state
  {
    if id.None? {
      return Err(IllegalArgument(MSG_ID_NULL));
    }
    if id.value !in db.reglas {
      return Err(NoEncontrada(id.value));
    }
    var error := ValidarDatosRegla(dto);
    if error.Some? {
      return Err(error.value);
    }
    db.reglas := db.reglas[id.value := Regla(dto.descripcion.value, dto.tipoFalta.value)];
    r := Ok(id.value);
  }

  /** eliminar against the repository. */
  method EliminarEnBd(db: Store.Db, id: Option<nat>) returns (r: Result<()>)
    modifies db`reglas
    ensures r == Eliminar(old(db.Snapshot()), id).result
    ensures db.Snapshot() == Eliminar(old(db.Snapshot()), id).state
  {
    if id.None? {
      return Err(IllegalArgument(MSG_ID_NULL));
    }
    if id.value !in db.reglas {
      return Err(NoEncontrada(id.value));
    }
    db.reglas := db.reglas - {id.value};
    r := Ok(());
  }

  /** procesarInfraccion against the repositories: the sanction is saved
      first, then its detail through the sanction's cascade. */
  method ProcesarInfraccionEnBd(db: Store.Db, orden: seq<nat>, usuarioId: nat, vehiculoId: nat,
    tipoInfraccion: Option<string>, descripcion: string, now: Time, now2: Time) returns (r: Result<()>)
    modifies db`sanciones, db`detalles, db`nextId
    ensures r == ProcesarInfraccion(old(db.Snapshot()), orden, usuarioId, vehiculoId, tipoInfraccion, descripcion, now, now2).result
    ensures db.Snapshot() == ProcesarInfraccion(old(db.Snapshot()), orden, usuarioId, vehiculoId, tipoInfraccion, descripcion, now, now2).state
  {
    ghost var s0 := db.Snapshot();
    ghost var st := ProcesarInfraccion(s0, orden, usuarioId, vehiculoId, tipoInfraccion, descripcion, now, now2);
    var primera := PrimeraCoincidencia(db.reglas, orden, tipoInfraccion);
    if primera.None? {
      return Err(IllegalArgument("No existe una regla para la infracción: " + TextoDe(tipoInfraccion)));
    }
    var reglaId := orden[primera.value];
    var sid := db.NuevoId();
    db.sanciones := db.sanciones[sid := SancionDeInfraccion(usuarioId, vehiculoId, descripcion, now)];
    var did := db.NuevoId();
    db.detalles := db.detalles[did := SancionDetalle(sid, reglaId, descripcion, now2, EstadoDetalle.ACTIVO)];
    r := Ok(());
    assert st == Step(db.Snapshot(), r);
  }
}
