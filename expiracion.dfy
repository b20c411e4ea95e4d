/** The expiration job of ReservaServiceImpl (liberarEspaciosReservadosExpirados):
    pass 1 walks the RESERVADO reservations in query order, pass 2 walks every
    QR. Both passes are written as the source's loops over a list (the
    recursive functions Pasada1 and Pasada2) and then characterized as one
    order-independent update over sets. */
module ReservaExpiracion {
  import opened Common
  import opened Entities
  import Store

  /** The grace period after the start of a reservation (plusMinutes(30)). */
  const TREINTA_MINUTOS: int := 30 * MINUTE

  // ------------------------------------------------------- single updates

  /** Reservation `id` marked EXPIRADO; its space is not touched. */
  function Expirada(s: State, id: nat): State
    requires id in s.reservas
  {
    s.(reservas := s.reservas[id := s.reservas[id].(estado := EstadoReserva.EXPIRADO)])
  }

  /** Reservation `id` marked EXPIRADO and its space, when it has one, DISPONIBLE. */
  function Liberada(s: State, id: nat): State
    requires id in s.reservas
  {
    var e := s.reservas[id].espacioId;
    s.(reservas := s.reservas[id := s.reservas[id].(estado := EstadoReserva.EXPIRADO)],
       espacios := if e in s.espacios then s.espacios[e := s.espacios[e].(estado := EstadoEspacio.DISPONIBLE)] else s.espacios)
  }

  // ------------------------------------------------------------ pass 1

  /** Pass 1 reaches a reservation whose end lies before `now` (isBefore). */
  predicate Vencida(r: Reserva, now: Time)
  {
    r.fin < now
  }

  /** Pass 1 over the listed reservations: each one already past its end is
      marked EXPIRADO and its space is left as it is. The notification then
      reads the space's number, so a reservation without a space throws a
      NullPointerException (None) and the transaction is rolled back. */
  function Pasada1(s: State, ids: seq<nat>, now: Time): Option<State>
    decreases |ids|
  {
    if ids == [] then Some(s)
    else if ids[0] in s.reservas && Vencida(s.reservas[ids[0]], now) then
      if s.reservas[ids[0]].espacioId !in s.espacios then None
      else Pasada1(Expirada(s, ids[0]), ids[1..], now)
    else Pasada1(s, ids[1..], now)
  }

  // ------------------------------------------------------------ pass 2

  /** The time-and-token part of pass 2's test for QR `q`: an unused ENTRADA
      QR of a reservation that has not reached its end, whose own expiry or
      whose reservation's start plus 30 minutes lies before `now`. */
  predicate QrVencido(s: State, q: nat, now: Time)
  {
    && q in s.qrs
    && s.qrs[q].tipo == "ENTRADA" && s.qrs[q].timestampEnt.None?
    && s.qrs[q].reserva.Some? && s.qrs[q].reserva.value in s.reservas
    && !Vencida(s.reservas[s.qrs[q].reserva.value], now)
    && ((s.qrs[q].fechaExpiracion.Some? && s.qrs[q].fechaExpiracion.value < now)
        || s.reservas[s.qrs[q].reserva.value].inicio + TREINTA_MINUTOS < now)
  }

  /** Pass 2 acts on QR `q`: the test above, and its reservation still RESERVADO. */
  predicate QrCaducado(s: State, q: nat, now: Time)
  {
    QrVencido(s, q, now) && s.reservas[s.qrs[q].reserva.value].estado == EstadoReserva.RESERVADO
  }

  /** Pass 2 over the listed QRs: for each one that qualifies the space is
      freed and the reservation expired; a reservation without a space then
      throws in the notification (None) and the transaction is rolled back. */
  function Pasada2(s: State, qs: seq<nat>, now: Time): Option<State>
    decreases |qs|
  {
    if qs == [] then Some(s)
    else if QrCaducado(s, qs[0], now) then
      var id := s.qrs[qs[0]].reserva.value;
      if s.reservas[id].espacioId !in s.espacios then None
      else Pasada2(Liberada(s, id), qs[1..], now)
    else Pasada2(s, qs[1..], now)
  }

  /** The whole job: pass 1 over `reservadas` (the RESERVADO reservations, in
      query order), then pass 2 over `escaneos` (every QR). */
  function Barrido(s: State, reservadas: seq<nat>, escaneos: seq<nat>, now: Time): Step<()>
  {
    match Pasada1(s, reservadas, now)
    case None => Step(s, Err(NullPointer))
    case Some(s1) =>
      match Pasada2(s1, escaneos, now)
      case None => Step(s, Err(NullPointer))
      case Some(s2) => Step(s2, Ok(()))
  }

  // ----------------------------------------------- the set-level reading

  function ElementosDe(xs: seq<nat>): set<nat>
  {
    set x | x in xs
  }

  /** The ids of the reservations in state `e` (findByEstadoWithRelations). */
  function ReservasEn(reservas: map<nat, Reserva>, e: EstadoReserva): set<nat>
  {
    set r | r in reservas && reservas[r].estado == e
  }

  /** Pass 1 as one update: every reservation of `ids` past its end is EXPIRADO. */
  function ExpirarVencidas(reservas: map<nat, Reserva>, ids: set<nat>, now: Time): map<nat, Reserva>
  {
    map r | r in reservas :: if r in ids && Vencida(reservas[r], now) then reservas[r].(estado := EstadoReserva.EXPIRADO) else reservas[r]
  }

  /** Pass 1 meets a reservation past its end that has no space. */
  predicate FaltaEspacio1(s: State, ids: set<nat>, now: Time)
  {
    exists r :: r in ids && r in s.reservas && Vencida(s.reservas[r], now) && s.reservas[r].espacioId !in s.espacios
  }

  /** The reservations pass 2 expires when it looks at the QRs `qs`. */
  function Caducadas(s: State, qs: set<nat>, now: Time): set<nat>
  {
    set q | q in qs && QrCaducado(s, q, now) :: s.qrs[q].reserva.value
  }

  /** Some reservation of `ids` uses space `e`. */
  predicate EspacioDeAlguna(reservas: map<nat, Reserva>, ids: set<nat>, e: nat)
  {
    exists r :: r in ids && r in reservas && reservas[r].espacioId == e
  }

  /** Every reservation of `ids` EXPIRADO and every space one of them uses DISPONIBLE. */
  function Liberar(s: State, ids: set<nat>): State
  {
    s.(reservas := map r | r in s.reservas :: if r in ids then s.reservas[r].(estado := EstadoReserva.EXPIRADO) else s.reservas[r],
       espacios := map e | e in s.espacios ::
         if EspacioDeAlguna(s.reservas, ids, e) then s.espacios[e].(estado := EstadoEspacio.DISPONIBLE) else s.espacios[e])
  }

  /** Pass 2 meets a reservation to expire that has no space. */
  predicate FaltaEspacio2(s: State, ids: set<nat>)
  {
    exists r :: r in ids && r in s.reservas && s.reservas[r].espacioId !in s.espacios
  }

  // ------------------------------------------------- pass 1 characterized

  lemma ExpirarVencidasPaso(s: State, id: nat, ids: set<nat>, now: Time)
    requires id in s.reservas && Vencida(s.reservas[id], now)
    ensures ExpirarVencidas(Expirada(s, id).reservas, ids, now) == ExpirarVencidas(s.reservas, ids + {id}, now)
  {
  }

  lemma ExpirarVencidasSinEfecto(reservas: map<nat, Reserva>, id: nat, ids: set<nat>, now: Time)
    requires !(id in reservas && Vencida(reservas[id], now))
    ensures ExpirarVencidas(reservas, ids, now) == ExpirarVencidas(reservas, ids + {id}, now)
  {
  }

  /** Pass 1 is the one-step update, whatever the list order: it throws exactly
      when a listed reservation past its end has no space, and otherwise
      expires every listed reservation past its end and nothing else. */
  lemma {:induction false} Pasada1Caracterizada(s: State, ids: seq<nat>, now: Time)
    ensures Pasada1(s, ids, now) ==
      if FaltaEspacio1(s, ElementosDe(ids), now) then None
      else Some(s.(reservas := ExpirarVencidas(s.reservas, ElementosDe(ids), now)))
    decreases |ids|
  {
    if ids == [] {
      assert ElementosDe(ids) == {};
      assert ExpirarVencidas(s.reservas, {}, now) == s.reservas;
    } else {
      var id := ids[0];
      var resto := ElementosDe(ids[1..]);
      assert ElementosDe(ids) == resto + {id};
      if id in s.reservas && Vencida(s.reservas[id], now) {
        if s.reservas[id].espacioId in s.espacios {
          var t := Expirada(s, id);
          Pasada1Caracterizada(t, ids[1..], now);
          assert FaltaEspacio1(t, resto, now) <==> FaltaEspacio1(s, resto + {id}, now) by {
            if FaltaEspacio1(s, resto + {id}, now) {
              var r :| r in resto + {id} && r in s.reservas && Vencida(s.reservas[r], now) && s.reservas[r].espacioId !in s.espacios;
              assert r in resto && r in t.reservas && t.reservas[r].espacioId !in t.espacios;
            }
          }
          ExpirarVencidasPaso(s, id, resto, now);
        }
      } else {
        Pasada1Caracterizada(s, ids[1..], now);
        ExpirarVencidasSinEfecto(s.reservas, id, resto, now);
      }
    }
  }

  /** Pass 1 never frees a space: a reservation past its end is expired while
      its space keeps whatever status it had. */
  lemma Pasada1NoLibera(s: State, ids: seq<nat>, now: Time)
    requires Pasada1(s, ids, now).Some?
    ensures Pasada1(s, ids, now).value.espacios == s.espacios
    ensures Pasada1(s, ids, now).value.qrs == s.qrs
    ensures Pasada1(s, ids, now).value.reservas.Keys == s.reservas.Keys
    ensures forall r :: r in s.reservas ==>
      Pasada1(s, ids, now).value.reservas[r] ==
        if r in ids && Vencida(s.reservas[r], now) then s.reservas[r].(estado := EstadoReserva.EXPIRADO) else s.reservas[r]
  {
    Pasada1Caracterizada(s, ids, now);
  }

  // ------------------------------------------------- pass 2 characterized

  /** Freeing one reservation is the set update on the singleton. */
  lemma LiberadaEsLiberar(s: State, id: nat)
    requires id in s.reservas
    ensures Liberada(s, id) == Liberar(s, {id})
  {
    var a := Liberada(s, id);
    var b := Liberar(s, {id});
    forall e | e in s.espacios
      ensures a.espacios[e] == b.espacios[e]
    {
      if EspacioDeAlguna(s.reservas, {id}, e) {
        assert s.reservas[id].espacioId == e;
      }
    }
    assert a.espacios == b.espacios;
  }

  /** Expiring reservations keeps every reservation's space. */
  lemma EspacioDeAlgunaTrasLiberar(s: State, a: set<nat>, b: set<nat>, e: nat)
    ensures EspacioDeAlguna(Liberar(s, a).reservas, b, e) <==> EspacioDeAlguna(s.reservas, b, e)
  {
    var t := Liberar(s, a);
    if EspacioDeAlguna(t.reservas, b, e) {
      var r :| r in b && r in t.reservas && t.reservas[r].espacioId == e;
      assert s.reservas[r].espacioId == e;
    }
    if EspacioDeAlguna(s.reservas, b, e) {
      var r :| r in b && r in s.reservas && s.reservas[r].espacioId == e;
      assert t.reservas[r].espacioId == e;
    }
  }

  lemma EspacioDeAlgunaUnion(reservas: map<nat, Reserva>, a: set<nat>, b: set<nat>, e: nat)
    ensures EspacioDeAlguna(reservas, a + b, e) <==> EspacioDeAlguna(reservas, a, e) || EspacioDeAlguna(reservas, b, e)
  {
    if EspacioDeAlguna(reservas, a + b, e) {
      var r :| r in a + b && r in reservas && reservas[r].espacioId == e;
      assert r in a || r in b;
    }
  }

  /** Two set updates in a row are the update on the union. */
  lemma LiberarCompone(s: State, a: set<nat>, b: set<nat>)
    ensures Liberar(Liberar(s, a), b) == Liberar(s, a + b)
  {
    var x := Liberar(Liberar(s, a), b);
    var y := Liberar(s, a + b);
    assert x.reservas == y.reservas;
    forall e | e in s.espacios
      ensures x.espacios[e] == y.espacios[e]
    {
      EspacioDeAlgunaTrasLiberar(s, a, b, e);
      EspacioDeAlgunaUnion(s.reservas, a, b, e);
    }
    assert x.espacios == y.espacios;
  }

  /** Expiring one reservation withdraws exactly the QRs of that reservation
      from pass 2's selection. */
  lemma CaducadasTrasLiberar(s: State, id: nat, qs: set<nat>, now: Time)
    requires id in s.reservas
    ensures Caducadas(Liberar(s, {id}), qs, now) + {id} == Caducadas(s, qs, now) + {id}
  {
    var t := Liberar(s, {id});
    forall q | q in qs
      ensures QrCaducado(t, q, now) <==> QrCaducado(s, q, now) && s.qrs[q].reserva.value != id
    {
    }
    forall r | r in Caducadas(s, qs, now) && r != id
      ensures r in Caducadas(t, qs, now)
    {
      var q :| q in qs && QrCaducado(s, q, now) && s.qrs[q].reserva.value == r;
      assert QrCaducado(t, q, now);
    }
    forall r | r in Caducadas(t, qs, now)
      ensures r in Caducadas(s, qs, now)
    {
      var q :| q in qs && QrCaducado(t, q, now) && t.qrs[q].reserva.value == r;
      assert QrCaducado(s, q, now);
    }
  }

  /** Expiring a reservation that has its space changes no reservation's space link. */
  lemma FaltaEspacio2TrasLiberar(s: State, id: nat, ids: set<nat>)
    requires id in s.reservas && s.reservas[id].espacioId in s.espacios
    ensures FaltaEspacio2(Liberar(s, {id}), ids) <==> FaltaEspacio2(s, ids + {id})
  {
    var t := Liberar(s, {id});
    if FaltaEspacio2(s, ids + {id}) {
      var r :| r in ids + {id} && r in s.reservas && s.reservas[r].espacioId !in s.espacios;
      assert r in ids && r in t.reservas && t.reservas[r].espacioId !in t.espacios;
    }
  }

  /** The set update on no reservation changes nothing. */
  lemma LiberarVacio(s: State)
    ensures Liberar(s, {}) == s
  {
    assert Liberar(s, {}).reservas == s.reservas;
    assert Liberar(s, {}).espacios == s.espacios;
  }

  /** Pass 2 is the one-step update, whatever the list order: it throws exactly
      when a reservation it selects has no space, and otherwise expires the
      reservations of every qualifying QR and frees their spaces. */
  lemma {:induction false} Pasada2Caracterizada(s: State, qs: seq<nat>, now: Time)
    ensures Pasada2(s, qs, now) ==
      var c := Caducadas(s, ElementosDe(qs), now);
      if FaltaEspacio2(s, c) then None else Some(Liberar(s, c))
    decreases |qs|
  {
    var c := Caducadas(s, ElementosDe(qs), now);
    if qs == [] {
      assert c == {};
      LiberarVacio(s);
    } else {
      var q := qs[0];
      var resto := ElementosDe(qs[1..]);
      assert ElementosDe(qs) == resto + {q};
      if QrCaducado(s, q, now) {
        var id := s.qrs[q].reserva.value;
        assert c == Caducadas(s, resto, now) + {id};
        if s.reservas[id].espacioId in s.espacios {
          var t := Liberada(s, id);
          LiberadaEsLiberar(s, id);
          Pasada2Caracterizada(t, qs[1..], now);
          var ct := Caducadas(t, resto, now);
          CaducadasTrasLiberar(s, id, resto, now);
          assert ct + {id} == c;
          LiberarCompone(s, {id}, ct);
          assert {id} + ct == c;
          FaltaEspacio2TrasLiberar(s, id, ct);
        } else {
          assert FaltaEspacio2(s, c);
        }
      } else {
        Pasada2Caracterizada(s, qs[1..], now);
        assert c == Caducadas(s, resto, now);
      }
    }
  }

  // ------------------------------------------------------ the whole job

  /** The database after pass 1, as the set update. */
  function TrasPasada1(s: State, ids: set<nat>, now: Time): State
  {
    s.(reservas := ExpirarVencidas(s.reservas, ids, now))
  }

  /** The job as one update: it fails (and rolls back) exactly when either pass
      meets a reservation without a space; otherwise it is pass 1 followed by
      pass 2 on the QRs that qualify after pass 1. */
  lemma BarridoCaracterizado(s: State, reservadas: seq<nat>, escaneos: seq<nat>, now: Time)
    ensures var s1 := TrasPasada1(s, ElementosDe(reservadas), now);
      var c := Caducadas(s1, ElementosDe(escaneos), now);
      Barrido(s, reservadas, escaneos, now) ==
        if FaltaEspacio1(s, ElementosDe(reservadas), now) || FaltaEspacio2(s1, c) then Step(s, Err(NullPointer))
        else Step(Liberar(s1, c), Ok(()))
  {
    Pasada1Caracterizada(s, reservadas, now);
    if !FaltaEspacio1(s, ElementosDe(reservadas), now) {
      Pasada2Caracterizada(TrasPasada1(s, ElementosDe(reservadas), now), escaneos, now);
    }
  }

  /** The job only ever moves a RESERVADO reservation to EXPIRADO: reservations
      in any other state (ACTIVO among them) never expire automatically, no
      reservation is added or removed, and the QR, sanction and user tables are
      not touched. */
  lemma BarridoSoloReservado(s: State, reservadas: seq<nat>, escaneos: seq<nat>, now: Time)
    requires ElementosDe(reservadas) == ReservasEn(s.reservas, EstadoReserva.RESERVADO)
    ensures var t := Barrido(s, reservadas, escaneos, now).state;
      && t.reservas.Keys == s.reservas.Keys && t.espacios.Keys == s.espacios.Keys
      && t.qrs == s.qrs && t.sanciones == s.sanciones && t.usuarios == s.usuarios && t.vehiculos == s.vehiculos
      && (forall r :: r in s.reservas ==>
            || t.reservas[r] == s.reservas[r]
            || (s.reservas[r].estado == EstadoReserva.RESERVADO && t.reservas[r] == s.reservas[r].(estado := EstadoReserva.EXPIRADO)))
      && (forall r :: r in s.reservas && s.reservas[r].estado != EstadoReserva.RESERVADO ==> t.reservas[r] == s.reservas[r])
  {
    BarridoCaracterizado(s, reservadas, escaneos, now);
    var s1 := TrasPasada1(s, ElementosDe(reservadas), now);
    var c := Caducadas(s1, ElementosDe(escaneos), now);
    forall r | r in c
      ensures r in s1.reservas && s1.reservas[r].estado == EstadoReserva.RESERVADO
    {
      var q :| q in ElementosDe(escaneos) && QrCaducado(s1, q, now) && s1.qrs[q].reserva.value == r;
    }
  }

  /** After a successful job, every RESERVADO reservation past its end is EXPIRADO. */
  lemma BarridoExpiraVencidas(s: State, reservadas: seq<nat>, escaneos: seq<nat>, now: Time, r: nat)
    requires ElementosDe(reservadas) == ReservasEn(s.reservas, EstadoReserva.RESERVADO)
    requires Barrido(s, reservadas, escaneos, now).result.Ok?
    requires r in s.reservas && s.reservas[r].estado == EstadoReserva.RESERVADO && Vencida(s.reservas[r], now)
    ensures r in Barrido(s, reservadas, escaneos, now).state.reservas
    ensures Barrido(s, reservadas, escaneos, now).state.reservas[r] == s.reservas[r].(estado := EstadoReserva.EXPIRADO)
  {
    BarridoCaracterizado(s, reservadas, escaneos, now);
  }

  /** Pass 2's rule for a RESERVADO reservation that has not reached its end:
      the job expires it exactly when one of its QRs is an unused ENTRADA QR
      whose expiry, or whose reservation's start plus 30 minutes, lies before
      `now`; its space is then DISPONIBLE; otherwise it is left as it was. */
  lemma BarridoPasada2Sii(s: State, reservadas: seq<nat>, escaneos: seq<nat>, now: Time, r: nat)
    requires ElementosDe(reservadas) == ReservasEn(s.reservas, EstadoReserva.RESERVADO)
    requires ElementosDe(escaneos) == s.qrs.Keys
    requires Barrido(s, reservadas, escaneos, now).result.Ok?
    requires r in s.reservas && s.reservas[r].estado == EstadoReserva.RESERVADO && !Vencida(s.reservas[r], now)
    ensures var t := Barrido(s, reservadas, escaneos, now).state;
      && t.reservas.Keys == s.reservas.Keys && t.espacios.Keys == s.espacios.Keys
      && (t.reservas[r].estado == EstadoReserva.EXPIRADO <==> exists q :: QrVencido(s, q, now) && s.qrs[q].reserva == Some(r))
      && (t.reservas[r].estado == EstadoReserva.EXPIRADO && s.reservas[r].espacioId in s.espacios ==>
            t.espacios[s.reservas[r].espacioId].estado == EstadoEspacio.DISPONIBLE)
      && (t.reservas[r].estado != EstadoReserva.EXPIRADO ==> t.reservas[r] == s.reservas[r])
  {
    BarridoCaracterizado(s, reservadas, escaneos, now);
    var s1 := TrasPasada1(s, ElementosDe(reservadas), now);
    var c := Caducadas(s1, ElementosDe(escaneos), now);
    assert s1.reservas[r] == s.reservas[r];
    if exists q :: QrVencido(s, q, now) && s.qrs[q].reserva == Some(r) {
      var q :| QrVencido(s, q, now) && s.qrs[q].reserva == Some(r);
      assert QrCaducado(s1, q, now);
      assert r in c;
      assert EspacioDeAlguna(s1.reservas, c, s.reservas[r].espacioId);
    }
    if r in c {
      var q :| q in ElementosDe(escaneos) && QrCaducado(s1, q, now) && s1.qrs[q].reserva.value == r;
      assert QrVencido(s, q, now);
    }
  }

  /** After the job no RESERVADO reservation is past its end, so pass 1 of
      another run at the same instant does nothing. */
  lemma NadaVencidoTrasBarrido(s: State, reservadas: seq<nat>, escaneos: seq<nat>, ids: set<nat>, now: Time)
    requires ElementosDe(reservadas) == ReservasEn(s.reservas, EstadoReserva.RESERVADO)
    requires Barrido(s, reservadas, escaneos, now).result.Ok?
    requires ids == ReservasEn(Barrido(s, reservadas, escaneos, now).state.reservas, EstadoReserva.RESERVADO)
    ensures var t := Barrido(s, reservadas, escaneos, now).state;
      !FaltaEspacio1(t, ids, now) && TrasPasada1(t, ids, now) == t
  {
    BarridoCaracterizado(s, reservadas, escaneos, now);
    var s1 := TrasPasada1(s, ElementosDe(reservadas), now);
    var t := Liberar(s1, Caducadas(s1, ElementosDe(escaneos), now));
    forall r | r in ids
      ensures !Vencida(t.reservas[r], now)
    {
      assert s.reservas[r].estado == EstadoReserva.RESERVADO;
    }
    assert TrasPasada1(t, ids, now).reservas == t.reservas;
  }

  /** After the job no QR qualifies for pass 2 any more. */
  lemma NadaCaducadoTrasBarrido(s: State, reservadas: seq<nat>, escaneos: seq<nat>, qs: set<nat>, now: Time)
    requires ElementosDe(escaneos) == s.qrs.Keys
    requires Barrido(s, reservadas, escaneos, now).result.Ok?
    ensures Caducadas(Barrido(s, reservadas, escaneos, now).state, qs, now) == {}
  {
    BarridoCaracterizado(s, reservadas, escaneos, now);
    var s1 := TrasPasada1(s, ElementosDe(reservadas), now);
    var c := Caducadas(s1, ElementosDe(escaneos), now);
    var t := Liberar(s1, c);
    forall q | q in qs && QrVencido(t, q, now)
      ensures t.reservas[t.qrs[q].reserva.value].estado != EstadoReserva.RESERVADO
    {
      var r := t.qrs[q].reserva.value;
      if s1.reservas[r].estado == EstadoReserva.RESERVADO {
        assert QrCaducado(s1, q, now);
        assert r in c;
      }
    }
  }

  /** A second run at the same instant, with the lists the database then
      yields, finds nothing to do and changes nothing. */
  lemma BarridoIdempotente(s: State, reservadas: seq<nat>, escaneos: seq<nat>, reservadas2: seq<nat>, escaneos2: seq<nat>, now: Time)
    requires ElementosDe(reservadas) == ReservasEn(s.reservas, EstadoReserva.RESERVADO)
    requires ElementosDe(escaneos) == s.qrs.Keys
    requires Barrido(s, reservadas, escaneos, now).result.Ok?
    requires var t := Barrido(s, reservadas, escaneos, now).state;
      ElementosDe(reservadas2) == ReservasEn(t.reservas, EstadoReserva.RESERVADO) && ElementosDe(escaneos2) == t.qrs.Keys
    ensures var t := Barrido(s, reservadas, escaneos, now).state;
      Barrido(t, reservadas2, escaneos2, now) == Step(t, Ok(()))
  {
    BarridoCaracterizado(s, reservadas, escaneos, now);
    var s1 := TrasPasada1(s, ElementosDe(reservadas), now);
    var c := Caducadas(s1, ElementosDe(escaneos), now);
    var t := Liberar(s1, c);
    BarridoCaracterizado(t, reservadas2, escaneos2, now);
    NadaVencidoTrasBarrido(s, reservadas, escaneos, ElementosDe(reservadas2), now);
    NadaCaducadoTrasBarrido(s, reservadas, escaneos, ElementosDe(escaneos2), now);
    LiberarVacio(t);
  }

  // ------------------------------------------------------- the job itself

  /** Saves reservation `id` as EXPIRADO. */
  method ExpirarEnBd(db: Store.Db, id: nat)
    requires id in db.reservas
    modifies db`reservas
    ensures db.Snapshot() == Expirada(old(db.Snapshot()), id)
  {
    db.reservas := db.reservas[id := db.reservas[id].(estado := EstadoReserva.EXPIRADO)];
  }

  /** Saves the space of reservation `id` as DISPONIBLE, when it has one, and
      the reservation as EXPIRADO. */
  method LiberarEnBd(db: Store.Db, id: nat)
    requires id in db.reservas
    modifies db`reservas, db`espacios
    ensures db.Snapshot() == Liberada(old(db.Snapshot()), id)
  {
    var e := db.reservas[id].espacioId;
    if e in db.espacios {
      db.espacios := db.espacios[e := db.espacios[e].(estado := EstadoEspacio.DISPONIBLE)];
    }
    db.reservas := db.reservas[id := db.reservas[id].(estado := EstadoReserva.EXPIRADO)];
  }

  /** liberarEspaciosReservadosExpirados: `reservadas` is what the RESERVADO
      query returned and `escaneos` what findAll on the QR table returned, in
      the order the database returned them. A NullPointerException in either
      pass rolls the whole transaction back. */
  method LiberarEspaciosReservadosExpirados(db: Store.Db, reservadas: seq<nat>, escaneos: seq<nat>, now: Time)
    returns (r: Result<()>)
    modifies db`reservas, db`espacios
    ensures r == Barrido(old(db.Snapshot()), reservadas, escaneos, now).result
    ensures db.Snapshot() == Barrido(old(db.Snapshot()), reservadas, escaneos, now).state
  {
    var reservas0, espacios0 := db.reservas, db.espacios;
    ghost var s0 := db.Snapshot();
    var i := 0;
    while i < |reservadas|
      invariant 0 <= i <= |reservadas|
      invariant db.qrs == s0.qrs && db.sanciones == s0.sanciones && db.usuarios == s0.usuarios
      invariant Pasada1(db.Snapshot(), reservadas[i..], now) == Pasada1(s0, reservadas, now)
    {
      var id := reservadas[i];
      assert reservadas[i..][1..] == reservadas[i + 1..];
      if id in db.reservas && Vencida(db.reservas[id], now) {
        if db.reservas[id].espacioId !in db.espacios {
          db.reservas, db.espacios := reservas0, espacios0;
          return Err(NullPointer);
        }
        ExpirarEnBd(db, id);
      }
      i := i + 1;
    }
    ghost var s1 := db.Snapshot();
    assert Pasada1(s0, reservadas, now) == Some(s1);
    var j := 0;
    while j < |escaneos|
      invariant 0 <= j <= |escaneos|
      invariant Pasada2(db.Snapshot(), escaneos[j..], now) == Pasada2(s1, escaneos, now)
    {
      var q := escaneos[j];
      assert escaneos[j..][1..] == escaneos[j + 1..];
      if QrCaducado(db.Snapshot(), q, now) {
        var id := db.qrs[q].reserva.value;
        if db.reservas[id].espacioId !in db.espacios {
          db.reservas, db.espacios := reservas0, espacios0;
          return Err(NullPointer);
        }
        LiberarEnBd(db, id);
      }
      j := j + 1;
    }
    assert Pasada2(s1, escaneos, now) == Some(db.Snapshot());
    r := Ok(());
  }
}
