/** UsuarioServiceImpl: the validation of a user, the uniqueness of usernames
    and e-mails, and the guards that are meant to keep exactly one
    administrator: no second one is created or promoted by role name, and the
    only one is never deleted or deactivated. */
module UsuarioService {
  import opened Common
  import opened Entities
  import Store

  /** UsuarioDto as crear and actualizar read it. */
  datatype UsuarioDto = UsuarioDto(
    username: Option<string>,
    password: Option<string>,
    nombreCompleto: Option<string>,
    email: Option<string>,
    rolId: Option<nat>,
    rolNombre: Option<string>,
    activo: Option<bool>)

  const ADMINISTRADOR: string := "ADMINISTRADOR"
  const MSG_ID_NULL: string := "El ID no puede ser null"
  const MSG_USERNAME_REGISTRADO: string := "El nombre de usuario ya está registrado."
  const MSG_EMAIL_REGISTRADO: string := "El correo electrónico ya está registrado."
  const MSG_YA_HAY_ADMIN: string := "Ya existe un usuario administrador en el sistema. Solo puede haber un administrador."
  const MSG_ROL_NO_ENCONTRADO: string := "Rol no encontrado"
  /** The NoSuchElementException of Optional.orElseThrow() with no argument. */
  const MSG_SIN_VALOR: string := "No value present"
  const MSG_ELIMINAR_UNICO_ADMIN: string := "No se puede eliminar el único administrador del sistema. Debe haber al menos un administrador."
  const MSG_DESACTIVAR_UNICO_ADMIN: string := "No se puede desactivar el único administrador del sistema."
  const MSG_ELIMINAR_COMPLETO_UNICO_ADMIN: string := "No se puede eliminar el único administrador del sistema."
  const MSG_TIENE_ASOCIADOS: string := "No se puede eliminar el usuario porque tiene vehículos, reservas, sanciones o historial asociado. Use desactivarUsuario() en su lugar."

  // ------------------------------------------------------------ validation

  /** A string field that is present and not blank. */
  predicate Presente(x: Option<string>)
  {
    x.Some? && !IsBlank(x.value)
  }

  /** validarDatosUsuario: the checks in their order. */
  function ValidarDatosUsuario(dto: UsuarioDto): (r: Option<Error>)
    ensures r.None? <==>
      Presente(dto.username) && Presente(dto.password) && Presente(dto.nombreCompleto)
      && Presente(dto.email) && dto.rolId.Some?
    ensures r.Some? ==> r.value.IllegalArgument?
  {
    if !Presente(dto.username) then Some(IllegalArgument("El nombre de usuario no puede estar vacío"))
    else if !Presente(dto.password) then Some(IllegalArgument("La contraseña no puede estar vacía"))
    else if !Presente(dto.nombreCompleto) then Some(IllegalArgument("El nombre completo no puede estar vacío"))
    else if !Presente(dto.email) then Some(IllegalArgument("El email no puede estar vacío"))
    else if dto.rolId.None? then Some(IllegalArgument("El ID del rol no puede estar vacío"))
    else None
  }

  // ------------------------------------------------------------- lookups

  /** existsByUsername */
  predicate UsernameEnUso(s: State, username: string)
  {
    exists u :: u in s.usuarios && s.usuarios[u].username == username
  }

  /** existsByEmail */
  predicate EmailEnUso(s: State, email: string)
  {
    exists u :: u in s.usuarios && s.usuarios[u].email == email
  }

  /** The unique constraints on username and e-mail. */
  ghost predicate NombresUnicos(s: State)
  {
    && (forall u1, u2 :: u1 in s.usuarios && u2 in s.usuarios && s.usuarios[u1].username == s.usuarios[u2].username ==> u1 == u2)
    && (forall u1, u2 :: u1 in s.usuarios && u2 in s.usuarios && s.usuarios[u1].email == s.usuarios[u2].email ==> u1 == u2)
  }

  /** No stored user already has an identity not yet handed out. */
  ghost predicate IdsUsuarios(s: State)
  {
    forall k :: k in s.usuarios ==> k < s.nextId
  }

  /** `adm` is what rolRepository.findByNombre("ADMINISTRADOR") answers: empty
      exactly when no role has that name, otherwise a role with that name. */
  predicate EsRolAdmin(s: State, adm: Option<nat>)
  {
    && (adm.None? <==> forall k :: k in s.roles ==> s.roles[k].nombre != ADMINISTRADOR)
    && (adm.Some? ==> adm.value in s.roles && s.roles[adm.value].nombre == ADMINISTRADOR)
  }

  /** The users whose role is `rol` (findByRol; existsByRol and countByRol
      test and count this set). */
  function UsuariosConRol(s: State, rol: nat): set<nat>
  {
    set u | u in s.usuarios && s.usuarios[u].rolId == rol
  }

  /** "ADMINISTRADOR".equalsIgnoreCase(nombre); false on null. */
  predicate NombraAdmin(nombre: Option<string>)
  {
    nombre.Some? && EqualsIgnoreCase(ADMINISTRADOR, nombre.value)
  }

  /** A role name names the administrator exactly when it has thirteen
      characters and spells each letter of ADMINISTRADOR in either case or by
      one of the non-ASCII forms equalsIgnoreCase folds onto it (ı and İ for
      I, ſ for S). */
  lemma NombraAdminSii(n: string)
    ensures NombraAdmin(Some(n)) <==> |n| == |ADMINISTRADOR| && forall i :: 0 <= i < |n| ==> VarianteDeLetra(ADMINISTRADOR[i], n[i])
  {
    EqualsIgnoreCaseMayusculasSii(ADMINISTRADOR, n);
  }

  /** The dotless ı names the administrator: "admınıstrador" passes the
      test that "ADMINISTRADOR".equalsIgnoreCase applies. */
  lemma NombraAdminConISinPunto()
    ensures NombraAdmin(Some("adm\U{131}n\U{131}strador"))
  {
    NombraAdminSii("adm\U{131}n\U{131}strador");
  }

  /** The guards shared by actualizar, eliminar, desactivarUsuario and
      activarUsuario: a present id of a stored user. */
  function ErrorDeId(s: State, id: Option<nat>): (r: Option<Error>)
    ensures r.None? <==> id.Some? && id.value in s.usuarios
    ensures r.Some? ==> r.value.IllegalArgument? || r.value.EntityNotFound?
  {
    if id.None? then Some(IllegalArgument(MSG_ID_NULL))
    else if id.value !in s.usuarios then Some(EntityNotFound("Usuario no encontrado con ID " + NatToString(id.value)))
    else None
  }

  /** The last-administrator guard of eliminar, desactivarUsuario and
      eliminarUsuarioCompleto: the administrator role must exist, and the user
      must not be the only user holding it. */
  function ErrorUnicoAdmin(s: State, adm: Option<nat>, u: nat, mensaje: string): (r: Option<Error>)
    requires u in s.usuarios
    ensures r.None? <==> adm.Some? && !(s.usuarios[u].rolId == adm.value && |UsuariosConRol(s, adm.value)| == 1)
  {
    if adm.None? then Some(Runtime(MSG_SIN_VALOR))
    else if s.usuarios[u].rolId == adm.value && |UsuariosConRol(s, adm.value)| == 1 then Some(Runtime(mensaje))
    else None
  }

  /** The lookup of the administrator role. */
  method BuscarRolAdmin(db: Store.Db) returns (adm: Option<nat>)
    ensures EsRolAdmin(db.Snapshot(), adm)
  {
    if exists k :: k in db.roles && db.roles[k].nombre == ADMINISTRADOR {
      var k :| k in db.roles && db.roles[k].nombre == ADMINISTRADOR;
      adm := Some(k);
    } else {
      adm := None;
    }
  }

  // ------------------------------------------------------------------ crear

  /** The checks of crear in their order. The administrator role is looked up
      only when the request names that role. */
  function ErrorAlCrear(s: State, adm: Option<nat>, dto: UsuarioDto): Option<Error>
  {
    if ValidarDatosUsuario(dto).Some? then ValidarDatosUsuario(dto)
    else if UsernameEnUso(s, dto.username.value) then Some(Runtime(MSG_USERNAME_REGISTRADO))
    else if EmailEnUso(s, dto.email.value) then Some(Runtime(MSG_EMAIL_REGISTRADO))
    else if NombraAdmin(dto.rolNombre) && adm.None? then Some(Runtime(MSG_SIN_VALOR))
    else if NombraAdmin(dto.rolNombre) && UsuariosConRol(s, adm.value) != {} then Some(Runtime(MSG_YA_HAY_ADMIN))
    else if dto.rolId.value !in s.roles then Some(Runtime(MSG_ROL_NO_ENCONTRADO))
    else None
  }

  /** The user crear saves: the dto's fields with the encoded password, the
      role by rolId, and activo true unless the dto says otherwise. */
  function UsuarioNuevo(dto: UsuarioDto, passwordCodificada: string): Usuario
    requires ValidarDatosUsuario(dto).None?
  {
    Usuario(dto.username.value, passwordCodificada, dto.nombreCompleto.value, dto.email.value,
      dto.rolId.value, if dto.activo.Some? then dto.activo.value else true)
  }

  /** crear(dto); `passwordCodificada` is passwordEncoder.encode(dto.password).
      Returns the id of the new user. */
  function Crear(s: State, adm: Option<nat>, dto: UsuarioDto, passwordCodificada: string): Step<nat>
  {
    match ErrorAlCrear(s, adm, dto)
    case Some(e) => Step(s, Err(e))
    case None =>
      Step(s.(usuarios := s.usuarios[s.nextId := UsuarioNuevo(dto, passwordCodificada)], nextId := s.nextId + 1), Ok(s.nextId))
  }

  /** crear succeeds exactly when the dto is valid, its username and e-mail are
      unused, the role exists and, for a request naming the administrator
      role, no administrator exists yet; it then adds one user and nothing
      else, and a refusal saves nothing. */
  lemma CrearSii(s: State, adm: Option<nat>, dto: UsuarioDto, passwordCodificada: string)
    ensures var st := Crear(s, adm, dto, passwordCodificada);
      && (st.result.Ok? <==>
            && ValidarDatosUsuario(dto).None?
            && !UsernameEnUso(s, dto.username.value) && !EmailEnUso(s, dto.email.value)
            && (NombraAdmin(dto.rolNombre) ==> adm.Some? && UsuariosConRol(s, adm.value) == {})
            && dto.rolId.value in s.roles)
      && (st.result.Err? ==> st.state == s)
      && (st.result.Ok? ==>
            var id := st.result.value;
            var u := st.state.usuarios[id];
            && id == s.nextId && st.state.nextId == s.nextId + 1
            && st.state.usuarios == s.usuarios[id := u]
            && u.username == dto.username.value && u.email == dto.email.value
            && u.password == passwordCodificada && u.rolId == dto.rolId.value && u.rolId in st.state.roles
            && u.activo == (dto.activo != Some(false))
            && st.state == s.(usuarios := st.state.usuarios, nextId := st.state.nextId))
  {
  }

  /** crear keeps usernames and e-mails unique, and the new id fresh. */
  lemma CrearUnicos(s: State, adm: Option<nat>, dto: UsuarioDto, passwordCodificada: string)
    requires NombresUnicos(s) && IdsUsuarios(s)
    ensures NombresUnicos(Crear(s, adm, dto, passwordCodificada).state)
    ensures IdsUsuarios(Crear(s, adm, dto, passwordCodificada).state)
    ensures Crear(s, adm, dto, passwordCodificada).result.Ok? ==> Crear(s, adm, dto, passwordCodificada).result.value !in s.usuarios
  {
    if ErrorAlCrear(s, adm, dto).None? {
      var t := Crear(s, adm, dto, passwordCodificada).state;
      var n := UsuarioNuevo(dto, passwordCodificada);
      assert t.usuarios == s.usuarios[s.nextId := n];
      forall u | u in s.usuarios
        ensures s.usuarios[u].username != n.username && s.usuarios[u].email != n.email
      {
      }
    }
  }

  /** A request naming the administrator role is saved only when no user
      holds that role yet, and then its user is the only one holding it. */
  lemma CrearNoDuplicaAdminPorNombre(s: State, adm: Option<nat>, dto: UsuarioDto, passwordCodificada: string)
    requires EsRolAdmin(s, adm)
    requires NombraAdmin(dto.rolNombre)
    ensures var st := Crear(s, adm, dto, passwordCodificada);
      st.result.Ok? ==>
        && adm.Some? && UsuariosConRol(s, adm.value) == {}
        && UsuariosConRol(st.state, adm.value) <= {st.result.value}
  {
    var st := Crear(s, adm, dto, passwordCodificada);
    if st.result.Ok? {
      forall u | u in UsuariosConRol(st.state, adm.value) ensures u == st.result.value {
        assert u == s.nextId || u in UsuariosConRol(s, adm.value);
      }
    }
  }

  /** The guard reads the role NAME of the request while the role saved is the
      one its rolId names: a request that gives the administrator's rolId and
      no role name creates a second administrator. */
  lemma CrearSegundoAdminPorId(s: State, a: nat, dto: UsuarioDto, passwordCodificada: string)
    requires EsRolAdmin(s, Some(a)) && IdsUsuarios(s)
    requires UsuariosConRol(s, a) != {}
    requires ValidarDatosUsuario(dto).None? && dto.rolId == Some(a) && dto.rolNombre.None?
    requires !UsernameEnUso(s, dto.username.value) && !EmailEnUso(s, dto.email.value)
    ensures var st := Crear(s, Some(a), dto, passwordCodificada);
      && st.result.Ok?
      && UsuariosConRol(st.state, a) == UsuariosConRol(s, a) + {s.nextId}
      && |UsuariosConRol(st.state, a)| >= 2
  {
    assert ErrorAlCrear(s, Some(a), dto).None?;
    var st := Crear(s, Some(a), dto, passwordCodificada);
    assert st.state.usuarios == s.usuarios[s.nextId := UsuarioNuevo(dto, passwordCodificada)];
    assert s.nextId !in UsuariosConRol(s, a);
    assert UsuariosConRol(st.state, a) == UsuariosConRol(s, a) + {s.nextId};
  }

  method CrearEnBd(db: Store.Db, adm: Option<nat>, dto: UsuarioDto, passwordCodificada: string) returns (r: Result<nat>)
    modifies db`usuarios, db`nextId
    ensures r == Crear(old(db.Snapshot()), adm, dto, passwordCodificada).result
    ensures db.Snapshot() == Crear(old(db.Snapshot()), adm, dto, passwordCodificada).state
  {
    var error := ErrorAlCrear(db.Snapshot(), adm, dto);
    if error.Some? {
      return Err(error.value);
    }
    var usuario := Usuario(dto.username.value, dto.password.value, dto.nombreCompleto.value, dto.email.value, dto.rolId.value, true);
    if dto.activo.Some? {
      usuario := usuario.(activo := dto.activo.value);
    }
    usuario := usuario.(password := passwordCodificada);
    var id := db.NuevoId();
    db.usuarios := db.usuarios[id := usuario];
    r := Ok(id);
  }

  // ------------------------------------------------------------- actualizar

  /** The checks of actualizar in their order. The stored user's role name is
      read only when the request names the administrator role (a missing role
      is then a NullPointerException), and the administrator role is looked
      up only when, moreover, the stored role is not the administrator's. */
  function ErrorAlActualizar(s: State, adm: Option<nat>, id: Option<nat>, dto: UsuarioDto): (r: Option<Error>)
    ensures r.None? ==> id.Some? && id.value in s.usuarios && ValidarDatosUsuario(dto).None? && dto.rolId.value in s.roles
  {
    if ErrorDeId(s, id).Some? then ErrorDeId(s, id)
    else if ValidarDatosUsuario(dto).Some? then ValidarDatosUsuario(dto)
    else
      var existente := s.usuarios[id.value];
      if dto.username.value != existente.username && UsernameEnUso(s, dto.username.value) then Some(Runtime(MSG_USERNAME_REGISTRADO))
      else if dto.email.value != existente.email && EmailEnUso(s, dto.email.value) then Some(Runtime(MSG_EMAIL_REGISTRADO))
      else if NombraAdmin(dto.rolNombre) && existente.rolId !in s.roles then Some(NullPointer)
      else if NombraAdmin(dto.rolNombre) && !NombraAdmin(Some(s.roles[existente.rolId].nombre)) && adm.None? then Some(Runtime(MSG_SIN_VALOR))
      else if NombraAdmin(dto.rolNombre) && !NombraAdmin(Some(s.roles[existente.rolId].nombre)) && UsuariosConRol(s, adm.value) != {} then Some(Runtime(MSG_YA_HAY_ADMIN))
      else if dto.rolId.value !in s.roles then Some(Runtime(MSG_ROL_NO_ENCONTRADO))
      else None
  }

  /** The user actualizar saves over `existente`: the dto's username, password
      (as given, not encoded), name, e-mail and role; activo only when the dto
      carries one. */
  function UsuarioActualizado(existente: Usuario, dto: UsuarioDto): Usuario
    requires ValidarDatosUsuario(dto).None?
  {
    Usuario(dto.username.value, dto.password.value, dto.nombreCompleto.value, dto.email.value,
      dto.rolId.value, if dto.activo.Some? then dto.activo.value else existente.activo)
  }

  /** actualizar(id, dto). */
  function Actualizar(s: State, adm: Option<nat>, id: Option<nat>, dto: UsuarioDto): Step<nat>
  {
    match ErrorAlActualizar(s, adm, id, dto)
    case Some(e) => Step(s, Err(e))
    case None => Step(s.(usuarios := s.usuarios[id.value := UsuarioActualizado(s.usuarios[id.value], dto)]), Ok(id.value))
  }

  /** actualizar refuses a null id, an unknown id, and a username or e-mail
      that another user holds (keeping one's own is allowed); when it succeeds
      it rewrites only that user, stores the password as given, and changes
      activo only when the dto carries a value. A refusal saves nothing. */
  lemma ActualizarConserva(s: State, adm: Option<nat>, id: Option<nat>, dto: UsuarioDto)
    ensures var st := Actualizar(s, adm, id, dto);
      && (id.None? ==> st.result == Err(IllegalArgument(MSG_ID_NULL)))
      && (id.Some? && id.value !in s.usuarios ==> st.result.Err? && st.result.error.EntityNotFound?)
      && (st.result.Err? ==> st.state == s)
      && (id.Some? && id.value in s.usuarios && ValidarDatosUsuario(dto).None? ==>
            && (dto.username.value != s.usuarios[id.value].username && UsernameEnUso(s, dto.username.value) ==>
                  st.result == Err(Runtime(MSG_USERNAME_REGISTRADO)))
            && ((dto.username.value == s.usuarios[id.value].username && dto.email.value == s.usuarios[id.value].email
                 && !NombraAdmin(dto.rolNombre) && dto.rolId.value in s.roles) ==> st.result.Ok?))
      && (st.result.Ok? ==>
            var original := s.usuarios[id.value];
            var nuevo := st.state.usuarios[id.value];
            && id.Some? && id.value in s.usuarios && st.result.value == id.value
            && st.state == s.(usuarios := s.usuarios[id.value := nuevo])
            && nuevo.username == dto.username.value && nuevo.password == dto.password.value
            && nuevo.email == dto.email.value && nuevo.rolId == dto.rolId.value && nuevo.rolId in s.roles
            && (dto.username.value == original.username || !UsernameEnUso(s, dto.username.value))
            && (dto.email.value == original.email || !EmailEnUso(s, dto.email.value))
            && nuevo.activo == (if dto.activo.Some? then dto.activo.value else original.activo))
  {
  }

  /** actualizar keeps usernames and e-mails unique. */
  lemma ActualizarUnicos(s: State, adm: Option<nat>, id: Option<nat>, dto: UsuarioDto)
    requires NombresUnicos(s)
    ensures NombresUnicos(Actualizar(s, adm, id, dto).state)
  {
    if ErrorAlActualizar(s, adm, id, dto).None? {
      var t := Actualizar(s, adm, id, dto).state;
      var n := UsuarioActualizado(s.usuarios[id.value], dto);
      assert t.usuarios == s.usuarios[id.value := n];
      forall u | u in s.usuarios && u != id.value
        ensures s.usuarios[u].username != n.username && s.usuarios[u].email != n.email
      {
      }
    }
  }

  /** A request naming the administrator role turns a user whose role is not
      the administrator's into an administrator only when no user holds that
      role yet. */
  lemma ActualizarNoPromueveConAdmin(s: State, adm: Option<nat>, id: Option<nat>, dto: UsuarioDto)
    requires EsRolAdmin(s, adm)
    requires NombraAdmin(dto.rolNombre)
    requires id.Some? && id.value in s.usuarios && s.usuarios[id.value].rolId in s.roles
    requires !NombraAdmin(Some(s.roles[s.usuarios[id.value].rolId].nombre))
    ensures Actualizar(s, adm, id, dto).result.Ok? ==> adm.Some? && UsuariosConRol(s, adm.value) == {}
  {
  }

  /** The guard reads the role NAME of the request, while the role saved is the
      one its rolId names: the only administrator, updated with another
      rolId and no role name, leaves the system without administrators. */
  lemma ActualizarDegradaUnicoAdmin(s: State, a: nat, id: nat, dto: UsuarioDto)
    requires EsRolAdmin(s, Some(a))
    requires UsuariosConRol(s, a) == {id}
    requires ValidarDatosUsuario(dto).None? && dto.rolNombre.None?
    requires dto.username.value == s.usuarios[id].username && dto.email.value == s.usuarios[id].email
    requires dto.rolId.value in s.roles && dto.rolId.value != a
    ensures var st := Actualizar(s, Some(a), Some(id), dto);
      st.result.Ok? && UsuariosConRol(st.state, a) == {}
  {
    assert id in UsuariosConRol(s, a);
    var st := Actualizar(s, Some(a), Some(id), dto);
    assert st.state.usuarios == s.usuarios[id := UsuarioActualizado(s.usuarios[id], dto)];
    forall u | u in st.state.usuarios ensures st.state.usuarios[u].rolId != a {
      if u != id {
        assert u !in UsuariosConRol(s, a);
      }
    }
  }

  method ActualizarEnBd(db: Store.Db, adm: Option<nat>, id: Option<nat>, dto: UsuarioDto) returns (r: Result<nat>)
    modifies db`usuarios
    ensures r == Actualizar(old(db.Snapshot()), adm, id, dto).result
    ensures db.Snapshot() == Actualizar(old(db.Snapshot()), adm, id, dto).state
  {
    var error := ErrorAlActualizar(db.Snapshot(), adm, id, dto);
    if error.Some? {
      return Err(error.value);
    }
    var usuario := db.usuarios[id.value];
    usuario := usuario.(username := dto.username.value, password := dto.password.value);
    usuario := usuario.(nombreCompleto := dto.nombreCompleto.value, email := dto.email.value);
    usuario := usuario.(rolId := dto.rolId.value);
    if dto.activo.Some? {
      usuario := usuario.(activo := dto.activo.value);
    }
    db.usuarios := db.usuarios[id.value := usuario];
    r := Ok(id.value);
  }

  // --------------------------------------------------------------- eliminar

  /** The user owns vehicles, reservations or sanctions. */
  predicate TieneAsociados(s: State, u: nat)
  {
    || (exists v :: v in s.vehiculos && s.vehiculos[v].usuarioId == u)
    || (exists r :: r in s.reservas && s.reservas[r].usuarioId == u)
    || (exists k :: k in s.sanciones && s.sanciones[k].usuarioId == u)
  }

  /** The checks of eliminar in their order; `tieneHistorial` says whether the
      user has usage history, a table this model does not hold. */
  function ErrorAlEliminar(s: State, adm: Option<nat>, id: Option<nat>, tieneHistorial: bool): Option<Error>
  {
    if ErrorDeId(s, id).Some? then ErrorDeId(s, id)
    else if ErrorUnicoAdmin(s, adm, id.value, MSG_ELIMINAR_UNICO_ADMIN).Some? then ErrorUnicoAdmin(s, adm, id.value, MSG_ELIMINAR_UNICO_ADMIN)
    else if TieneAsociados(s, id.value) || tieneHistorial then Some(Runtime(MSG_TIENE_ASOCIADOS))
    else None
  }

  /** eliminar(id). */
  function Eliminar(s: State, adm: Option<nat>, id: Option<nat>, tieneHistorial: bool): Step<()>
  {
    match ErrorAlEliminar(s, adm, id, tieneHistorial)
    case Some(e) => Step(s, Err(e))
    case None => Step(s.(usuarios := s.usuarios - {id.value}), Ok(()))
  }

  /** eliminar removes exactly one user, one who owns nothing and is not the
      only administrator; so a system with an administrator keeps one. A
      refusal saves nothing. */
  lemma EliminarConservaAdmin(s: State, adm: Option<nat>, id: Option<nat>, tieneHistorial: bool)
    requires EsRolAdmin(s, adm)
    ensures var st := Eliminar(s, adm, id, tieneHistorial);
      && (st.result.Ok? <==>
            && id.Some? && id.value in s.usuarios && adm.Some?
            && !(s.usuarios[id.value].rolId == adm.value && |UsuariosConRol(s, adm.value)| == 1)
            && !TieneAsociados(s, id.value) && !tieneHistorial)
      && (st.result.Err? ==> st.state == s)
      && (st.result.Ok? ==>
            && st.state == s.(usuarios := s.usuarios - {id.value})
            && UsuariosConRol(st.state, adm.value) == UsuariosConRol(s, adm.value) - {id.value}
            && (UsuariosConRol(s, adm.value) != {} ==> UsuariosConRol(st.state, adm.value) != {}))
  {
    var st := Eliminar(s, adm, id, tieneHistorial);
    if st.result.Ok? {
      var a := adm.value;
      var t := st.state;
      assert UsuariosConRol(t, a) == UsuariosConRol(s, a) - {id.value};
      if UsuariosConRol(s, a) != {} && id.value in UsuariosConRol(s, a) {
        assert |UsuariosConRol(s, a)| != 1;
        var w :| w in UsuariosConRol(s, a) - {id.value} by {
          assert |UsuariosConRol(s, a) - {id.value}| == |UsuariosConRol(s, a)| - 1;
        }
        assert w in UsuariosConRol(t, a);
      } else if UsuariosConRol(s, a) != {} {
        var w :| w in UsuariosConRol(s, a);
        assert w in UsuariosConRol(t, a);
      }
    }
  }

  method EliminarEnBd(db: Store.Db, adm: Option<nat>, id: Option<nat>, tieneHistorial: bool) returns (r: Result<()>)
    modifies db`usuarios
    ensures r == Eliminar(old(db.Snapshot()), adm, id, tieneHistorial).result
    ensures db.Snapshot() == Eliminar(old(db.Snapshot()), adm, id, tieneHistorial).state
  {
    var error := ErrorAlEliminar(db.Snapshot(), adm, id, tieneHistorial);
    if error.Some? {
      return Err(error.value);
    }
    db.usuarios := db.usuarios - {id.value};
    r := Ok(());
  }

  // ------------------------------------------------ desactivar and activar

  function ErrorAlDesactivar(s: State, adm: Option<nat>, id: Option<nat>): Option<Error>
  {
    if ErrorDeId(s, id).Some? then ErrorDeId(s, id)
    else ErrorUnicoAdmin(s, adm, id.value, MSG_DESACTIVAR_UNICO_ADMIN)
  }

  /** desactivarUsuario(id). */
  function Desactivar(s: State, adm: Option<nat>, id: Option<nat>): Step<()>
  {
    match ErrorAlDesactivar(s, adm, id)
    case Some(e) => Step(s, Err(e))
    case None => Step(s.(usuarios := s.usuarios[id.value := s.usuarios[id.value].(activo := false)]), Ok(()))
  }

  /** activarUsuario(id). */
  function Activar(s: State, id: Option<nat>): Step<()>
  {
    match ErrorDeId(s, id)
    case Some(e) => Step(s, Err(e))
    case None => Step(s.(usuarios := s.usuarios[id.value := s.usuarios[id.value].(activo := true)]), Ok(()))
  }

  /** desactivarUsuario clears activo of the named user and changes nothing
      else; it refuses the only user holding the administrator role. */
  lemma DesactivarSii(s: State, adm: Option<nat>, id: Option<nat>)
    ensures var st := Desactivar(s, adm, id);
      && (st.result.Ok? <==>
            id.Some? && id.value in s.usuarios && adm.Some?
            && !(s.usuarios[id.value].rolId == adm.value && |UsuariosConRol(s, adm.value)| == 1))
      && (st.result.Err? ==> st.state == s)
      && (st.result.Ok? ==>
            && st.state.usuarios == s.usuarios[id.value := st.state.usuarios[id.value]]
            && st.state.usuarios[id.value] == s.usuarios[id.value].(activo := false)
            && !st.state.usuarios[id.value].activo
            && st.state == s.(usuarios := st.state.usuarios)
            && UsuariosConRol(st.state, adm.value) == UsuariosConRol(s, adm.value))
  {
  }

  /** activarUsuario sets activo of the named user and changes nothing else. */
  lemma ActivarSii(s: State, id: Option<nat>)
    ensures var st := Activar(s, id);
      && (st.result.Ok? <==> id.Some? && id.value in s.usuarios)
      && (st.result.Err? ==> st.state == s)
      && (st.result.Ok? ==>
            && st.state.usuarios[id.value] == s.usuarios[id.value].(activo := true)
            && st.state == s.(usuarios := s.usuarios[id.value := st.state.usuarios[id.value]]))
  {
  }

  /** Deactivation undone by activation restores a user that was active. */
  lemma DesactivarActivar(s: State, adm: Option<nat>, id: nat)
    requires Desactivar(s, adm, Some(id)).result.Ok?
    requires s.usuarios[id].activo
    ensures Activar(Desactivar(s, adm, Some(id)).state, Some(id)) == Step(s, Ok(()))
  {
    var t := Desactivar(s, adm, Some(id)).state;
    assert t.usuarios[id := t.usuarios[id].(activo := true)] == s.usuarios;
  }

  /** The guard counts the administrators, active or not: with two of them,
      both can be deactivated one after the other, and no active
      administrator is left. */
  lemma DesactivarAmbosAdmins(s: State, a: nat, u1: nat, u2: nat)
    requires EsRolAdmin(s, Some(a))
    requires u1 != u2 && UsuariosConRol(s, a) == {u1, u2}
    ensures var st1 := Desactivar(s, Some(a), Some(u1));
      var st2 := Desactivar(st1.state, Some(a), Some(u2));
      && st1.result.Ok? && st2.result.Ok?
      && (forall u :: u in st2.state.usuarios && st2.state.usuarios[u].rolId == a ==> !st2.state.usuarios[u].activo)
  {
    assert u1 in UsuariosConRol(s, a) && u2 in UsuariosConRol(s, a);
    var st1 := Desactivar(s, Some(a), Some(u1));
    assert |UsuariosConRol(s, a)| == 2;
    assert st1.result.Ok?;
    assert UsuariosConRol(st1.state, a) == UsuariosConRol(s, a);
    var st2 := Desactivar(st1.state, Some(a), Some(u2));
    assert st2.result.Ok?;
    forall u | u in st2.state.usuarios && st2.state.usuarios[u].rolId == a
      ensures !st2.state.usuarios[u].activo
    {
      assert u in UsuariosConRol(s, a);
    }
  }

  method DesactivarEnBd(db: Store.Db, adm: Option<nat>, id: Option<nat>) returns (r: Result<()>)
    modifies db`usuarios
    ensures r == Desactivar(old(db.Snapshot()), adm, id).result
    ensures db.Snapshot() == Desactivar(old(db.Snapshot()), adm, id).state
  {
    var error := ErrorAlDesactivar(db.Snapshot(), adm, id);
    if error.Some? {
      return Err(error.value);
    }
    var usuario := db.usuarios[id.value];
    usuario := usuario.(activo := false);
    db.usuarios := db.usuarios[id.value := usuario];
    r := Ok(());
  }

  method ActivarEnBd(db: Store.Db, id: Option<nat>) returns (r: Result<()>)
    modifies db`usuarios
    ensures r == Activar(old(db.Snapshot()), id).result
    ensures db.Snapshot() == Activar(old(db.Snapshot()), id).state
  {
    var error := ErrorDeId(db.Snapshot(), id);
    if error.Some? {
      return Err(error.value);
    }
    var usuario := db.usuarios[id.value];
    usuario := usuario.(activo := true);
    db.usuarios := db.usuarios[id.value := usuario];
    r := Ok(());
  }

  // ------------------------------------------------ eliminarUsuarioCompleto

  /** The user's vehicles. */
  function VehiculosDe(s: State, u: nat): set<nat>
  {
    set v | v in s.vehiculos && s.vehiculos[v].usuarioId == u
  }

  /** The database once the user, the user's sanctions, the sanctions on the
      user's vehicles, the user's reservations and vehicles are deleted. */
  function SinUsuario(s: State, u: nat): State
  {
    var vs := VehiculosDe(s, u);
    s.(sanciones := map k | k in s.sanciones && s.sanciones[k].vehiculoId !in vs && s.sanciones[k].usuarioId != u :: s.sanciones[k],
       reservas := map k | k in s.reservas && s.reservas[k].usuarioId != u :: s.reservas[k],
       vehiculos := map k | k in s.vehiculos && s.vehiculos[k].usuarioId != u :: s.vehiculos[k],
       usuarios := s.usuarios - {u})
  }

  /** eliminarUsuarioCompleto(id): the id is not checked for null. */
  function EliminarUsuarioCompleto(s: State, adm: Option<nat>, id: nat): Step<()>
  {
    if id !in s.usuarios then Step(s, Err(EntityNotFound("Usuario no encontrado con ID " + NatToString(id))))
    else if ErrorUnicoAdmin(s, adm, id, MSG_ELIMINAR_COMPLETO_UNICO_ADMIN).Some? then Step(s, Err(ErrorUnicoAdmin(s, adm, id, MSG_ELIMINAR_COMPLETO_UNICO_ADMIN).value))
    else Step(SinUsuario(s, id), Ok(()))
  }

  /** eliminarUsuarioCompleto refuses the only administrator; otherwise it
      leaves nothing of the user behind (no sanction of the user or on the
      user's vehicles, no reservation, no vehicle) and keeps every other
      user and every other row, so a system with an administrator keeps one. */
  lemma EliminarCompletoConservaAdmin(s: State, adm: Option<nat>, id: nat)
    requires EsRolAdmin(s, adm)
    ensures var st := EliminarUsuarioCompleto(s, adm, id);
      var t := st.state;
      && (st.result.Ok? <==>
            id in s.usuarios && adm.Some? && !(s.usuarios[id].rolId == adm.value && |UsuariosConRol(s, adm.value)| == 1))
      && (st.result.Err? ==> t == s)
      && (st.result.Ok? ==>
            && t.usuarios == s.usuarios - {id}
            && (forall k :: k in t.sanciones <==>
                  k in s.sanciones && s.sanciones[k].usuarioId != id
                  && !(s.sanciones[k].vehiculoId in s.vehiculos && s.vehiculos[s.sanciones[k].vehiculoId].usuarioId == id))
            && (forall k :: k in t.reservas <==> k in s.reservas && s.reservas[k].usuarioId != id)
            && (forall k :: k in t.vehiculos <==> k in s.vehiculos && s.vehiculos[k].usuarioId != id)
            && (forall k :: k in t.sanciones ==> t.sanciones[k] == s.sanciones[k])
            && t.espacios == s.espacios && t.qrs == s.qrs && t.detalles == s.detalles && t.roles == s.roles
            && UsuariosConRol(t, adm.value) == UsuariosConRol(s, adm.value) - {id}
            && (UsuariosConRol(s, adm.value) != {} ==> UsuariosConRol(t, adm.value) != {}))
  {
    var st := EliminarUsuarioCompleto(s, adm, id);
    if st.result.Ok? {
      var a := adm.value;
      var t := st.state;
      assert t == SinUsuario(s, id);
      assert UsuariosConRol(t, a) == UsuariosConRol(s, a) - {id};
      if UsuariosConRol(s, a) != {} && id in UsuariosConRol(s, a) {
        var w :| w in UsuariosConRol(s, a) - {id} by {
          assert |UsuariosConRol(s, a) - {id}| == |UsuariosConRol(s, a)| - 1;
        }
        assert w in UsuariosConRol(t, a);
      } else if UsuariosConRol(s, a) != {} {
        var w :| w in UsuariosConRol(s, a);
        assert w in UsuariosConRol(t, a);
      }
    }
  }

  method EliminarUsuarioCompletoEnBd(db: Store.Db, adm: Option<nat>, id: nat) returns (r: Result<()>)
    modifies db`sanciones, db`reservas, db`vehiculos, db`usuarios
    ensures r == EliminarUsuarioCompleto(old(db.Snapshot()), adm, id).result
    ensures db.Snapshot() == EliminarUsuarioCompleto(old(db.Snapshot()), adm, id).state
  {
    if id !in db.usuarios {
      return Err(EntityNotFound("Usuario no encontrado con ID " + NatToString(id)));
    }
    var error := ErrorUnicoAdmin(db.Snapshot(), adm, id, MSG_ELIMINAR_COMPLETO_UNICO_ADMIN);
    if error.Some? {
      return Err(error.value);
    }
    var vehiculoIds := VehiculosDe(db.Snapshot(), id);
    db.sanciones := map k | k in db.sanciones && db.sanciones[k].vehiculoId !in vehiculoIds && db.sanciones[k].usuarioId != id :: db.sanciones[k];
    db.reservas := map k | k in db.reservas && db.reservas[k].usuarioId != id :: db.reservas[k];
    db.vehiculos := map k | k in db.vehiculos && db.vehiculos[k].usuarioId != id :: db.vehiculos[k];
    db.usuarios := db.usuarios - {id};
    r := Ok(());
  }
}
