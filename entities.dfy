/** The persistent entities of the parking backend and the database that holds
    them: one id-indexed table per entity. A reference to another entity is the
    referenced id; a reference whose id has no row plays the part of null. */
module Entities {
  import opened Common

  datatype EstadoReserva = RESERVADO | ACTIVO | FINALIZADO | CANCELADO | EXPIRADO

  datatype EstadoEspacio = DISPONIBLE | OCUPADO | RESERVADO | FUERA_DE_SERVICIO | MANTENIMIENTO

  datatype EstadoSancion = ACTIVA | RESUELTA | ANULADA

  datatype EstadoDetalle = ACTIVO | RESUELTO | ANULADO

  datatype TipoFalta = LEVE | GRAVE

  datatype TipoVehiculo = AUTOMOVIL | MOTOCICLETA | CAMIONETA | CAMION | BUS

  datatype Reserva = Reserva(
    usuarioId: nat,
    vehiculoId: nat,
    espacioId: nat,
    inicio: Time,
    fin: Time,
    estado: EstadoReserva,
    fechaCreacion: Time,
    motivoCancelacion: Option<string>)

  datatype Espacio = Espacio(
    ubicacion: string,
    numeroEspacio: string,
    zona: string,
    estado: EstadoEspacio,
    capacidadMaxima: Option<int>,
    fechaRegistro: Time,
    activo: bool)

  /** The QR of a reservation. `tipo` is free text: ENTRADA, SALIDA, SALIDA_USADA
      are the values the services write. */
  datatype EscaneoQr = EscaneoQr(
    reserva: Option<nat>,
    timestampEnt: Option<Time>,
    timestampSal: Option<Time>,
    token: string,
    tipo: string,
    fechaExpiracion: Option<Time>,
    fechaInicioValidez: Option<Time>)

  datatype Sancion = Sancion(
    usuarioId: nat,
    vehiculoId: nat,
    motivo: string,
    estado: EstadoSancion,
    registroSancion: Time,
    fechaResolucion: Option<Time>,
    observaciones: Option<string>,
    registradaPor: Option<nat>,
    tipoCastigo: Option<string>,
    fechaInicioSuspension: Option<Time>,
    fechaFinSuspension: Option<Time>)

  datatype SancionDetalle = SancionDetalle(
    sancionId: nat,
    reglaId: nat,
    descripcion: string,
    fechaSancion: Time,
    estado: EstadoDetalle)

  datatype Regla = Regla(descripcion: string, tipoFalta: TipoFalta)

  datatype Usuario = Usuario(
    username: string,
    password: string,
    nombreCompleto: string,
    email: string,
    rolId: nat,
    activo: bool)

  /** A role with the names of its permissions. */
  datatype Rol = Rol(nombre: string, permisos: set<string>)

  datatype Vehiculo = Vehiculo(
    placa: string,
    modelo: string,
    marca: string,
    color: string,
    tipo: TipoVehiculo,
    usuarioId: nat,
    activo: bool,
    fechaRegistro: Time)

  /** The whole database. `nextId` is the identity generator: every row
      created receives it and it then moves on. */
  datatype State = State(
    reservas: map<nat, Reserva>,
    espacios: map<nat, Espacio>,
    qrs: map<nat, EscaneoQr>,
    sanciones: map<nat, Sancion>,
    detalles: map<nat, SancionDetalle>,
    reglas: map<nat, Regla>,
    usuarios: map<nat, Usuario>,
    roles: map<nat, Rol>,
    vehiculos: map<nat, Vehiculo>,
    nextId: nat)

  /** The outcome of a service call: the database afterwards and what the call
      returned or threw. A call that throws leaves the database as it found it
      unless the operation says otherwise. */
  datatype Step<T> = Step(state: State, result: Result<T>)

  /** The tokens of all stored QRs. */
  function Tokens(qrs: map<nat, EscaneoQr>): set<string>
  {
    set q | q in qrs :: qrs[q].token
  }

  /** The unique constraints of the QR table (token, reserva_id) and the fact
      that no row, and no QR or detail link, already uses an identity not yet
      handed out. */
  ghost predicate Valid(s: State)
  {
    && (forall q1, q2 :: q1 in s.qrs && q2 in s.qrs && s.qrs[q1].token == s.qrs[q2].token ==> q1 == q2)
    && (forall q1, q2 :: q1 in s.qrs && q2 in s.qrs && s.qrs[q1].reserva.Some? && s.qrs[q1].reserva == s.qrs[q2].reserva ==> q1 == q2)
    && (forall q :: q in s.qrs && s.qrs[q].reserva.Some? ==> s.qrs[q].reserva.value < s.nextId)
    && (forall k :: k in s.reservas ==> k < s.nextId)
    && (forall k :: k in s.qrs ==> k < s.nextId)
    && (forall k :: k in s.sanciones ==> k < s.nextId)
    && (forall k :: k in s.detalles ==> k < s.nextId)
    && (forall d :: d in s.detalles ==> s.detalles[d].sancionId < s.nextId)
  }

  /** The ids of the QRs linked to a reservation (EscaneoQRRepository.findByReservaId). */
  function QrsDeReserva(qrs: map<nat, EscaneoQr>, reservaId: nat): set<nat>
  {
    set q | q in qrs && qrs[q].reserva == Some(reservaId)
  }

  /** The QR linked to a reservation, if any. */
  ghost function QrDeReserva(qrs: map<nat, EscaneoQr>, reservaId: nat): (r: Option<nat>)
    ensures r.None? <==> QrsDeReserva(qrs, reservaId) == {}
    ensures r.Some? ==> r.value in qrs && qrs[r.value].reserva == Some(reservaId)
  {
    if QrsDeReserva(qrs, reservaId) == {} then None
    else
      var q :| q in QrsDeReserva(qrs, reservaId); Some(q)
  }

  /** Under the reserva_id unique constraint the QR of a reservation is the only one. */
  lemma QrDeReservaUnico(s: State, reservaId: nat, q: nat)
    requires Valid(s)
    requires q in s.qrs && s.qrs[q].reserva == Some(reservaId)
    ensures QrDeReserva(s.qrs, reservaId) == Some(q)
  {
    assert q in QrsDeReserva(s.qrs, reservaId);
  }
}
