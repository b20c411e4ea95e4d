/** CustomUserDetailsService, the copy under parkingApp/: the same gate with no
    exemption, so every suspension in effect locks login. */
module CustomUserDetailsServiceApp {
  import opened Common
  import opened Entities
  import SancionService
  import Gate = CustomUserDetailsService

  const MSG_SUSPENDIDO: string := "Usuario suspendido. No puede acceder hasta que finalice la suspensión."

  /** The text of the LockedException: the fixed message, then "|" and the
      suspension's end when it has one. */
  function MensajeBloqueo(fin: Option<Time>): string
  {
    MSG_SUSPENDIDO + (if fin.Some? then "|" + TimeToString(fin.value) else "")
  }

  /** loadUserByUsername once the user `u` is found; the clock reads `now`. */
  ghost function Cargar(s: State, u: nat, now: Time): Result<Gate.Detalles>
    requires u in s.usuarios
  {
    match Gate.PrimeraSuspension(s, u, now)
    case Some(k) => Err(Locked(MensajeBloqueo(s.sanciones[k].fechaFinSuspension)))
    case None => Gate.DetallesDe(s, u)
  }

  /** loadUserByUsername(username). It only reads the database. */
  ghost function LoadUserByUsername(s: State, username: string, now: Time): Result<Gate.Detalles>
  {
    match Gate.UsuarioPorNombre(s, username)
    case None => Err(UsernameNotFound("Usuario no encontrado: " + username))
    case Some(u) => Cargar(s, u, now)
  }

  /** An unknown username is a UsernameNotFoundException; with exactly one
      user under that name, the answer is the gate applied to that user. */
  lemma LoadPorNombre(s: State, username: string, u: nat, now: Time)
    ensures Gate.UsuariosConNombre(s, username) == {} ==>
      LoadUserByUsername(s, username, now) == Err(UsernameNotFound("Usuario no encontrado: " + username))
    ensures Gate.UsuariosConNombre(s, username) == {u} ==> u in s.usuarios && LoadUserByUsername(s, username, now) == Cargar(s, u, now)
  {
    if Gate.UsuariosConNombre(s, username) == {u} {
      assert u in Gate.UsuariosConNombre(s, username);
    }
  }

  /** Login is locked exactly when some suspension of the user is in effect,
      and the message always ends with "|" and that suspension's end. */
  lemma BloqueoSii(s: State, u: nat, now: Time)
    requires u in s.usuarios
    ensures var r := Cargar(s, u, now);
      && (r.Err? && r.error.Locked? <==> SancionService.Suspendido(s.sanciones, u, now))
      && (r.Err? && r.error.Locked? ==>
            exists k :: k in s.sanciones && s.sanciones[k].usuarioId == u && SancionService.SuspensionEfectiva(s.sanciones[k], now)
              && r.error == Locked(MSG_SUSPENDIDO + "|" + TimeToString(s.sanciones[k].fechaFinSuspension.value)))
  {
  }

  /** This copy locks every user the src/ copy locks. */
  lemma BloqueaMasQueGate(s: State, u: nat, now: Time)
    requires u in s.usuarios
    requires Gate.Cargar(s, u, now).Err? && Gate.Cargar(s, u, now).error.Locked?
    ensures Cargar(s, u, now).Err? && Cargar(s, u, now).error.Locked?
  {
    Gate.BloqueoSii(s, u, now);
  }

  /** It locks strictly more: a suspended user with a reservation in progress
      or expired is let in by the src/ copy and locked out by this one. The two
      copies agree on every user without a suspension in effect. */
  lemma DifiereSoloEnExencion(s: State, u: nat, now: Time)
    requires u in s.usuarios
    ensures SancionService.Suspendido(s.sanciones, u, now) && Gate.TieneReservaPendiente(s, u) ==>
      Cargar(s, u, now).Err? && Cargar(s, u, now).error.Locked? && Gate.Cargar(s, u, now) == Gate.DetallesDe(s, u)
    ensures !SancionService.Suspendido(s.sanciones, u, now) ==> Cargar(s, u, now) == Gate.Cargar(s, u, now)
  {
  }
}
