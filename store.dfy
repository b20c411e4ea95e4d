/** The database as the services see it: one mutable table per entity. */
module Store {
  import opened Common
  import opened Entities

  class Db {
    var reservas: map<nat, Reserva>
    var espacios: map<nat, Espacio>
    var qrs: map<nat, EscaneoQr>
    var sanciones: map<nat, Sancion>
    var detalles: map<nat, SancionDetalle>
    var reglas: map<nat, Regla>
    var usuarios: map<nat, Usuario>
    var roles: map<nat, Rol>
    var vehiculos: map<nat, Vehiculo>
    var nextId: nat

    /** The tables as one value. */
    function Snapshot(): State
      reads this
    {
      State(reservas, espacios, qrs, sanciones, detalles, reglas, usuarios, roles, vehiculos, nextId)
    }

    ghost predicate Valid()
      reads this
    {
      Entities.Valid(Snapshot())
    }

    constructor (s: State)
      ensures Snapshot() == s
    {
      reservas, espacios, qrs := s.reservas, s.espacios, s.qrs;
      sanciones, detalles, reglas := s.sanciones, s.detalles, s.reglas;
      usuarios, roles, vehiculos := s.usuarios, s.roles, s.vehiculos;
      nextId := s.nextId;
    }

    /** The identity column hands out its next value. */
    method NuevoId() returns (id: nat)
      modifies this`nextId
      ensures id == old(nextId) && nextId == id + 1
    {
      id := nextId;
      nextId := nextId + 1;
    }
  }
}
