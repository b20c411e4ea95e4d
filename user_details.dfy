/** CustomUserDetailsService, the copy under src/: the login gate. A user with
    a suspension in effect is locked out unless the user has a reservation in
    progress or expired; every other user gets details built from the role. */
module CustomUserDetailsService {
  import opened Common
  import opened Entities
  import SancionService

  /** The UserDetails handed to Spring Security. */
  datatype Detalles = Detalles(username: string, password: string, authorities: set<string>, disabled: bool)

  /** The users stored under `username`. */
  function UsuariosConNombre(s: State, username: string): set<nat>
  {
    set u | u in s.usuarios && s.usuarios[u].username == username
  }

  /** The user findByUsername returns, if any (the username column is unique). */
  ghost function UsuarioPorNombre(s: State, username: string): (r: Option<nat>)
    ensures r.None? <==> UsuariosConNombre(s, username) == {}
    ensures r.Some? ==> r.value in s.usuarios && s.usuarios[r.value].username == username
  {
    if UsuariosConNombre(s, username) == {} then None
    else
      var u :| u in UsuariosConNombre(s, username);
      Some(u)
  }

  /** The sanction the loop over the user's sanctions stops at: a suspension in
      effect at `now`, the first in the repository's order, which the model
      leaves unspecified. */
  ghost function PrimeraSuspension(s: State, u: nat, now: Time): (r: Option<nat>)
    ensures r.None? <==> !SancionService.Suspendido(s.sanciones, u, now)
    ensures r.Some? ==>
      (r.value in s.sanciones && s.sanciones[r.value].usuarioId == u
       && SancionService.SuspensionEfectiva(s.sanciones[r.value], now))
  {
    if SancionService.Suspendido(s.sanciones, u, now) then
      var k :| k in s.sanciones && s.sanciones[k].usuarioId == u && SancionService.SuspensionEfectiva(s.sanciones[k], now);
      Some(k)
    else None
  }

  /** The user has a reservation in progress (ACTIVO) or expired (EXPIRADO). */
  predicate TieneReservaPendiente(s: State, u: nat)
  {
    exists r :: r in s.reservas && s.reservas[r].usuarioId == u
      && (s.reservas[r].estado == EstadoReserva.ACTIVO || s.reservas[r].estado == EstadoReserva.EXPIRADO)
  }

  /** Whole days left (Duration.toDays). */
  function DiasRestantes(fin: Time, now: Time): nat
    requires now < fin
  {
    (fin - now) / DAY
  }

  /** Whole hours left, modulo 24 (Duration.toHours() % 24). */
  function HorasRestantes(fin: Time, now: Time): nat
    requires now < fin
  {
    ((fin - now) / HOUR) % 24
  }

  /** The text of the LockedException: the punishment's name and the time left,
      without the day part when less than a whole day is left. */
  function MensajeBloqueo(tipoSuspension: string, fin: Time, now: Time): string
    requires now < fin
  {
    var dias := DiasRestantes(fin, now);
    var horas := HorasRestantes(fin, now);
    "\U{1F6AB} ACCESO DENEGADO: Tu cuenta está suspendida por '" + tipoSuspension
      + "'. No puedes acceder al sistema hasta que finalice la suspensión."
      + (if dias > 0 then " Tiempo restante: " + NatToString(dias) + " días y " + NatToString(horas) + " horas."
         else " Tiempo restante: " + NatToString(horas) + " horas.")
  }

  /** The details built from the user's role: the permission names and
      "ROLE_" + the role's name; disabled when the user is inactive. A user
      whose role is missing makes getRol() null. */
  function DetallesDe(s: State, u: nat): Result<Detalles>
    requires u in s.usuarios
  {
    var usuario := s.usuarios[u];
    if usuario.rolId !in s.roles then Err(NullPointer)
    else
      var rol := s.roles[usuario.rolId];
      Ok(Detalles(usuario.username, usuario.password, rol.permisos + {"ROLE_" + rol.nombre}, !usuario.activo))
  }

  /** loadUserByUsername once the user `u` is found; the clock reads `now`. */
  ghost function Cargar(s: State, u: nat, now: Time): Result<Detalles>
    requires u in s.usuarios
  {
    match PrimeraSuspension(s, u, now)
    case Some(k) =>
      var x := s.sanciones[k];
      if !TieneReservaPendiente(s, u) then Err(Locked(MensajeBloqueo(x.tipoCastigo.value, x.fechaFinSuspension.value, now)))
      else DetallesDe(s, u)
    case None => DetallesDe(s, u)
  }

  /** loadUserByUsername(username). It only reads the database. */
  ghost function LoadUserByUsername(s: State, username: string, now: Time): Result<Detalles>
  {
    match UsuarioPorNombre(s, username)
    case None => Err(UsernameNotFound("Usuario no encontrado: " + username))
    case Some(u) => Cargar(s, u, now)
  }

  /** An unknown username is a UsernameNotFoundException; with exactly one
      user under that name, the answer is the gate applied to that user. */
  lemma LoadPorNombre(s: State, username: string, u: nat, now: Time)
    ensures UsuariosConNombre(s, username) == {} ==>
      LoadUserByUsername(s, username, now) == Err(UsernameNotFound("Usuario no encontrado: " + username))
    ensures UsuariosConNombre(s, username) == {u} ==> u in s.usuarios && LoadUserByUsername(s, username, now) == Cargar(s, u, now)
    ensures LoadUserByUsername(s, username, now).Err? && LoadUserByUsername(s, username, now).error.UsernameNotFound? <==>
      UsuariosConNombre(s, username) == {}
  {
    if UsuariosConNombre(s, username) == {u} {
      assert u in UsuariosConNombre(s, username);
    }
    if UsuariosConNombre(s, username) != {} {
      var v := UsuarioPorNombre(s, username).value;
      assert !Cargar(s, v, now).Err? || !Cargar(s, v, now).error.UsernameNotFound?;
    }
  }

  /** Login is locked exactly when some suspension of the user is in effect and
      the user has no reservation in progress or expired; the message names
      one such suspension and the time left on it. */
  lemma BloqueoSii(s: State, u: nat, now: Time)
    requires u in s.usuarios
    ensures var r := Cargar(s, u, now);
      && (r.Err? && r.error.Locked? <==> SancionService.Suspendido(s.sanciones, u, now) && !TieneReservaPendiente(s, u))
      && (r.Err? && r.error.Locked? ==>
            exists k :: k in s.sanciones && s.sanciones[k].usuarioId == u && SancionService.SuspensionEfectiva(s.sanciones[k], now)
              && r.error == Locked(MensajeBloqueo(s.sanciones[k].tipoCastigo.value, s.sanciones[k].fechaFinSuspension.value, now)))
  {
  }

  /** A suspended user with a reservation in progress or expired logs in
      exactly as if there were no suspension. */
  lemma ExencionPorReserva(s: State, u: nat, now: Time)
    requires u in s.usuarios && TieneReservaPendiente(s, u)
    ensures Cargar(s, u, now) == DetallesDe(s, u)
  {
  }

  /** Any user not locked out is served from the role: permissions plus the
      role name with the ROLE_ prefix, disabled exactly when inactive, and the
      stored username and password; only a missing role fails. */
  lemma DetallesDelRol(s: State, u: nat, now: Time)
    requires u in s.usuarios
    requires !(Cargar(s, u, now).Err? && Cargar(s, u, now).error.Locked?)
    ensures var r := Cargar(s, u, now);
      var usuario := s.usuarios[u];
      && (r.Ok? <==> usuario.rolId in s.roles)
      && (r.Err? ==> r.error == NullPointer)
      && (r.Ok? ==>
            && r.value.username == usuario.username && r.value.password == usuario.password
            && r.value.disabled == !usuario.activo
            && (forall p :: p in r.value.authorities <==> p in s.roles[usuario.rolId].permisos || p == "ROLE_" + s.roles[usuario.rolId].nombre))
  {
  }

  /** The time left in the message is the whole remaining time rounded down to
      the hour: `dias` days and `horas` hours with horas < 24, and the day part
      is shown exactly when at least one whole day is left. */
  lemma TiempoRestante(fin: Time, now: Time)
    requires now < fin
    ensures var d := DiasRestantes(fin, now);
      var h := HorasRestantes(fin, now);
      && h < 24
      && d * DAY + h * HOUR <= fin - now < d * DAY + (h + 1) * HOUR
      && (d > 0 <==> fin - now >= DAY)
  {
    var t := fin - now;
    var d := t / DAY;
    var hs := t / HOUR;
    var h := hs % 24;
    assert t == d * DAY + t % DAY;
    assert hs == d * 24 + (t % DAY) / HOUR by {
      assert t == (d * 24) * HOUR + t % DAY;
      assert 0 <= t % DAY < 24 * HOUR;
    }
    assert h == (t % DAY) / HOUR;
    assert (t % DAY) / HOUR * HOUR <= t % DAY < ((t % DAY) / HOUR + 1) * HOUR;
  }
}
