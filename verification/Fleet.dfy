/** Faults and vehicles: guarded status changes on mutable objects. */
module Fleet {
  import opened Common

  type Id = string

  datatype FaultStatus = Open | AwaitingTransport | WithTechnician | InRepair | Closed

  function FaultAllowed(s: FaultStatus): set<FaultStatus> {
    match s
    case Open => {AwaitingTransport, Closed}
    case AwaitingTransport => {WithTechnician, Open, InRepair, Closed}
    case WithTechnician => {InRepair, Open}
    case InRepair => {Closed}
    case Closed => {}
  }

  datatype FaultData = FaultData(id: Id, vehicleId: Id, description: string, status: FaultStatus,
                                 assignedTo: Option<Id>, note: Option<string>)

  datatype FaultMove = Moved | AlreadyClosed | Forbidden

  /** How a fault answers a request to change its status. */
  function MoveOf(s: FaultStatus, target: FaultStatus): FaultMove {
    if s == Closed then AlreadyClosed else if target in FaultAllowed(s) then Moved else Forbidden
  }

  class Fault {
    const id: Id
    const vehicleId: Id
    const description: string
    var status: FaultStatus
    var assignedTo: Option<Id>
    var note: Option<string>

    function View(): FaultData
      reads this
    {
      FaultData(id, vehicleId, description, status, assignedTo, note)
    }

    constructor (f: FaultData)
      ensures View() == f
    {
      id, vehicleId, description, status := f.id, f.vehicleId, f.description, f.status;
      assignedTo, note := f.assignedTo, f.note;
    }

    method TransitionTo(target: FaultStatus) returns (r: FaultMove)
      modifies this`status
      ensures r == MoveOf(old(status), target)
      ensures status == if r == Moved then target else old(status)
    {
      if status == Closed {
        return AlreadyClosed;
      }
      if target !in FaultAllowed(status) {
        return Forbidden;
      }
      status := target;
      r := Moved;
    }

    method MarkAwaitingTransport() returns (r: FaultMove)
      modifies this`status
      ensures r == Moved <==> old(status) == Open
      ensures status == if r == Moved then AwaitingTransport else old(status)
    {
      r := TransitionTo(AwaitingTransport);
    }

    method Assign(technicianId: Id) returns (r: FaultMove)
      modifies this
      ensures r == MoveOf(old(status), WithTechnician)
      ensures r == Moved <==> old(status) == AwaitingTransport
      ensures View() == if r == Moved then old(View()).(status := WithTechnician, assignedTo := Some(technicianId))
                        else old(View())
    {
      r := TransitionTo(WithTechnician);
      if r == Moved {
        assignedTo := Some(technicianId);
      }
    }

    method StartRepair() returns (r: FaultMove)
      modifies this`status
      ensures r == MoveOf(old(status), InRepair)
      ensures r == Moved <==> old(status) == AwaitingTransport || old(status) == WithTechnician
      ensures status == if r == Moved then InRepair else old(status)
    {
      r := TransitionTo(InRepair);
    }

    method Close() returns (r: FaultMove)
      modifies this`status
      ensures r == Moved <==> old(status) in {Open, AwaitingTransport, InRepair}
      ensures r == AlreadyClosed <==> old(status) == Closed
      ensures status == if r == Moved then Closed else old(status)
    {
      r := TransitionTo(Closed);
    }
  }

  datatype VehicleStatus =
    | Active | Inactive | UnderRepair | UnderExternalRepair | AwaitingDriver | ExitedCenter | Suspended
    | OutOfService | Decommissioned

  function VehicleAllowed(s: VehicleStatus): set<VehicleStatus> {
    match s
    case Active =>
      {Inactive, UnderRepair, UnderExternalRepair, AwaitingDriver, ExitedCenter, Suspended, OutOfService, Decommissioned}
    case UnderRepair =>
      {Active, Inactive, UnderExternalRepair, AwaitingDriver, Suspended, OutOfService, Decommissioned}
    case AwaitingDriver =>
      {Active, UnderRepair, UnderExternalRepair, OutOfService, Suspended, Inactive, Decommissioned}
    case Suspended =>
      {Active, Inactive, UnderRepair, UnderExternalRepair, AwaitingDriver, OutOfService, Decommissioned}
    case ExitedCenter =>
      {Active, Inactive, UnderRepair, UnderExternalRepair, AwaitingDriver, Suspended, OutOfService, Decommissioned}
    case OutOfService =>
      {Active, UnderRepair, UnderExternalRepair, AwaitingDriver, Inactive, Suspended, Decommissioned}
    case Inactive => {Active, UnderRepair, UnderExternalRepair, Decommissioned}
    case UnderExternalRepair =>
      {Active, UnderRepair, AwaitingDriver, OutOfService, Suspended, Inactive, Decommissioned}
    case Decommissioned => {}
  }

  datatype VehicleData = VehicleData(id: Id, number: string, status: VehicleStatus,
                                     driver1: Option<string>, driver2: Option<string>)

  class Vehicle {
    const id: Id
    const number: string
    var status: VehicleStatus
    const driver1: Option<string>
    const driver2: Option<string>

    function View(): VehicleData
      reads this
    {
      VehicleData(id, number, status, driver1, driver2)
    }

    constructor (v: VehicleData)
      ensures View() == v
    {
      id, number, status, driver1, driver2 := v.id, v.number, v.status, v.driver1, v.driver2;
    }

    method TransitionTo(target: VehicleStatus) returns (ok: bool)
      modifies this
      ensures ok <==> target in VehicleAllowed(old(status))
      ensures status == if ok then target else old(status)
    {
      ok := target in VehicleAllowed(status);
      if ok {
        status := target;
      }
    }
  }

  /** Which statuses lead to which: the fault's table, read backwards. */
  lemma FaultReachability(s: FaultStatus)
    ensures Open in FaultAllowed(s) <==> s == AwaitingTransport || s == WithTechnician
    ensures AwaitingTransport in FaultAllowed(s) <==> s == Open
    ensures WithTechnician in FaultAllowed(s) <==> s == AwaitingTransport
    ensures InRepair in FaultAllowed(s) <==> s == AwaitingTransport || s == WithTechnician
    ensures Closed in FaultAllowed(s) <==> s != Closed && s != WithTechnician
  {
  }

  /** A vehicle can return to ACTIVE from every other status but DECOMMISSIONED, and can be taken out
      of service from every other status but INACTIVE and DECOMMISSIONED; it exits only from ACTIVE. */
  lemma VehicleReachability(s: VehicleStatus)
    ensures Active in VehicleAllowed(s) <==> s != Active && s != Decommissioned
    ensures OutOfService in VehicleAllowed(s) <==> s !in {OutOfService, Inactive, Decommissioned}
    ensures ExitedCenter in VehicleAllowed(s) <==> s == Active
    ensures Decommissioned in VehicleAllowed(s) <==> s != Decommissioned
    ensures UnderRepair in VehicleAllowed(s) <==> s !in {UnderRepair, Decommissioned}
    ensures UnderExternalRepair in VehicleAllowed(s) <==> s !in {UnderExternalRepair, Decommissioned}
    ensures AwaitingDriver in VehicleAllowed(s) <==> s !in {AwaitingDriver, Inactive, Decommissioned}
    ensures Suspended in VehicleAllowed(s) <==> s !in {Suspended, Inactive, Decommissioned}
    ensures Inactive in VehicleAllowed(s) <==> s !in {Inactive, Decommissioned}
  {
  }
}
