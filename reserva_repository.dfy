/** The two reservation queries of ReservaRepository that carry business rules:
    the overlap query and the "reservations still ahead" query. */
module ReservaRepository {
  import opened Common
  import opened Entities

  /** SQL `x BETWEEN lo AND hi`, inclusive at both ends. */
  predicate Between(x: Time, lo: Time, hi: Time)
  {
    lo <= x <= hi
  }

  /** The states the overlap query looks at. */
  predicate Vigente(e: EstadoReserva)
  {
    e == EstadoReserva.RESERVADO || e == EstadoReserva.ACTIVO
  }

  /** The time test of findReservasConflictivas. */
  predicate SeSolapan(r1: Reserva, r2: Reserva)
  {
    || Between(r1.inicio, r2.inicio, r2.fin)
    || Between(r1.fin, r2.inicio, r2.fin)
    || Between(r2.inicio, r1.inicio, r1.fin)
  }

  /** The row pair (r1, r2) the query joins. `r1.espacio = r2.espacio` compares
      two foreign keys; a reservation whose space is gone carries a null key,
      and NULL = NULL is not true in SQL, so both spaces must be stored. */
  predicate EnConflicto(espacios: set<nat>, id1: nat, r1: Reserva, id2: nat, r2: Reserva)
  {
    && id1 != id2
    && r1.espacioId in espacios && r1.espacioId == r2.espacioId
    && Vigente(r1.estado) && Vigente(r2.estado)
    && SeSolapan(r1, r2)
  }

  /** findReservasConflictivas: every r1 that has a conflicting partner r2. */
  function FindReservasConflictivas(reservas: map<nat, Reserva>, espacios: set<nat>): (r: set<nat>)
    ensures r <= reservas.Keys
    ensures forall id :: id in r ==> Vigente(reservas[id].estado) && reservas[id].espacioId in espacios
    ensures forall id :: id in r ==> exists id2 :: id2 in reservas && EnConflicto(espacios, id, reservas[id], id2, reservas[id2])
  {
    set id1, id2 | id1 in reservas && id2 in reservas && EnConflicto(espacios, id1, reservas[id1], id2, reservas[id2]) :: id1
  }

  /** For well-formed reservations the BETWEEN test is exactly "the closed
      intervals [inicio, fin] intersect", so touching end points overlap. */
  lemma SolapeEsInterseccion(r1: Reserva, r2: Reserva)
    requires r1.inicio <= r1.fin && r2.inicio <= r2.fin
    ensures SeSolapan(r1, r2) <==> r1.inicio <= r2.fin && r2.inicio <= r1.fin
  {
  }

  /** For well-formed reservations the conflict relation is symmetric. */
  lemma ConflictoSimetrico(espacios: set<nat>, id1: nat, r1: Reserva, id2: nat, r2: Reserva)
    requires r1.inicio <= r1.fin && r2.inicio <= r2.fin
    ensures EnConflicto(espacios, id1, r1, id2, r2) <==> EnConflicto(espacios, id2, r2, id1, r1)
  {
    SolapeEsInterseccion(r1, r2);
    SolapeEsInterseccion(r2, r1);
  }

  /** Without inicio <= fin the test is not symmetric: a reservation from 20 to 5
      overlaps one from 0 to 10, but not the other way round. */
  lemma SolapeAsimetricoSinOrden()
    ensures var r1 := Reserva(1, 1, 1, 20, 5, EstadoReserva.RESERVADO, 0, None);
            var r2 := Reserva(2, 2, 1, 0, 10, EstadoReserva.RESERVADO, 0, None);
            SeSolapan(r1, r2) && !SeSolapan(r2, r1)
  {
  }

  /** Two reservations of a space that meet at one instant conflict. */
  lemma ExtremosQueSeTocan(espacios: set<nat>, id1: nat, r1: Reserva, id2: nat, r2: Reserva)
    requires id1 != id2 && r1.espacioId in espacios && r1.espacioId == r2.espacioId
    requires Vigente(r1.estado) && Vigente(r2.estado)
    requires r1.inicio <= r1.fin == r2.inicio <= r2.fin
    ensures EnConflicto(espacios, id1, r1, id2, r2) && EnConflicto(espacios, id2, r2, id1, r1)
  {
  }

  /** In a table of well-formed reservations the query returns both members of
      every conflicting pair. */
  lemma ConflictivasPorPares(reservas: map<nat, Reserva>, espacios: set<nat>, id1: nat, id2: nat)
    requires forall k :: k in reservas ==> reservas[k].inicio <= reservas[k].fin
    requires id1 in reservas && id2 in reservas
    requires EnConflicto(espacios, id1, reservas[id1], id2, reservas[id2])
    ensures id1 in FindReservasConflictivas(reservas, espacios) && id2 in FindReservasConflictivas(reservas, espacios)
  {
    ConflictoSimetrico(espacios, id1, reservas[id1], id2, reservas[id2]);
  }

  /** findReservasActivas(estado, now): the reservations in `estado` that start at
      or after `now`. */
  function FindReservasActivas(reservas: map<nat, Reserva>, estado: EstadoReserva, now: Time): (r: set<nat>)
    ensures forall id :: id in r <==> id in reservas && reservas[id].estado == estado && reservas[id].inicio >= now
  {
    set id | id in reservas && reservas[id].estado == estado && now <= reservas[id].inicio
  }
}
