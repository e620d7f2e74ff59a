/** The fault workflow services: they load copies, change them, and save them back, one at a time. */
module WorkflowServices {
  import opened Common
  import opened Fleet
  import RO = RepairOrders
  import opened SapTransactions
  import opened SapGatewaySpec
  import opened SapGateway
  import opened Workflow
  import WR = WorkflowRuns

  /** The repositories of faults, vehicles and repair orders. */
  class FleetStore {
    var faults: map<Id, FaultData>
    var vehicles: map<Id, VehicleData>
    var orders: map<Id, RO.Order>

    /** Every record is stored under its own identifier. */
    predicate Keyed()
      reads this
    {
      && (forall f :: f in faults ==> faults[f].id == f)
      && (forall v :: v in vehicles ==> vehicles[v].id == v)
      && (forall o :: o in orders ==> orders[o].id == o)
    }

    method LoadFault(id: Id) returns (found: Option<Fault>)
      ensures found.Some? <==> id in faults
      ensures found.Some? ==> fresh(found.value) && found.value.View() == faults[id]
    {
      if id !in faults {
        return None;
      }
      var f := new Fault(faults[id]);
      found := Some(f);
    }

    method SaveFault(f: Fault)
      modifies this`faults
      ensures faults == old(faults)[f.id := f.View()]
    {
      faults := faults[f.id := f.View()];
    }

    method LoadVehicle(id: Id) returns (found: Option<Vehicle>)
      ensures found.Some? <==> id in vehicles
      ensures found.Some? ==> fresh(found.value) && found.value.View() == vehicles[id]
    {
      if id !in vehicles {
        return None;
      }
      var v := new Vehicle(vehicles[id]);
      found := Some(v);
    }

    method SaveVehicle(v: Vehicle)
      modifies this`vehicles
      ensures vehicles == old(vehicles)[v.id := v.View()]
    {
      vehicles := vehicles[v.id := v.View()];
    }

    /** Brings a vehicle back to ACTIVE, as both the decision and the rejection end. */
    method Reactivate(id: Id, ghost sap: Gateway, ghost asked: seq<Id>) returns (r: Outcome)
      requires Keyed()
      modifies this`vehicles
      ensures (WorldOf(this, sap, asked), r) == Workflow.Reactivate(old(WorldOf(this, sap, asked)), id)
    {
      var found := LoadVehicle(id);
      if found.None? {
        return Missing;
      }
      var vehicle := found.value;
      if vehicle.status != Active {
        var ok := vehicle.TransitionTo(Active);
        if !ok {
          return ForbiddenTransition;
        }
        SaveVehicle(vehicle);
      }
      r := Done;
    }

    method LoadOrder(id: Id) returns (found: Option<RO.RepairOrder>)
      ensures found.Some? <==> id in orders
      ensures found.Some? ==> fresh(found.value) && found.value.View() == orders[id]
    {
      if id !in orders {
        return None;
      }
      var o := new RO.RepairOrder(orders[id]);
      found := Some(o);
    }

    method SaveOrder(o: RO.RepairOrder)
      modifies this`orders
      ensures orders == old(orders)[o.id := o.View()]
    {
      orders := orders[o.id := o.View()];
    }

    /** The orders of a fault, in whatever order the table yields them. */
    method ListByFault(faultId: Id) returns (found: seq<RO.Order>)
      requires Keyed()
      ensures forall i :: 0 <= i < |found| ==>
                found[i].id in orders && found[i] == orders[found[i].id] && found[i].faultId == faultId
      ensures forall i, j :: 0 <= i < j < |found| ==> found[i].id != found[j].id
      ensures forall o :: o in orders && orders[o].faultId == faultId ==> orders[o] in found
    {
      found := [];
      var left := orders.Keys;
      while left != {}
        invariant left <= orders.Keys
        invariant forall i :: 0 <= i < |found| ==>
                    && found[i].id in orders && found[i].id !in left
                    && found[i] == orders[found[i].id] && found[i].faultId == faultId
        invariant forall i, j :: 0 <= i < j < |found| ==> found[i].id != found[j].id
        invariant forall o :: o in orders && o !in left && orders[o].faultId == faultId ==> orders[o] in found
        decreases left
      {
        var o :| o in left;
        left := left - {o};
        if orders[o].faultId == faultId {
          found := found + [orders[o]];
        }
      }
    }

    method HasOpenFaultForVehicle(vehicleId: Id) returns (open: bool)
      ensures open <==> exists f :: f in faults && faults[f].vehicleId == vehicleId && faults[f].status != Closed
    {
      open := exists f :: f in faults && faults[f].vehicleId == vehicleId && faults[f].status != Closed;
    }

    method HasOpenOrderForVehicle(vehicleId: Id) returns (open: bool)
      ensures open <==> exists o :: o in orders && orders[o].vehicleId == vehicleId && orders[o].status !in FINISHED
    {
      open := exists o :: o in orders && orders[o].vehicleId == vehicleId && orders[o].status !in FINISHED;
    }
  }

  /** The stored world, with what the gateway holds and the requests made so far. */
  function WorldOf(store: FleetStore, sap: Gateway, asked: seq<Id>): World
    reads store
  {
    World(store.faults, store.vehicles, store.orders, sap, asked)
  }

  class CloseFaultService {
    const store: FleetStore

    constructor (store: FleetStore)
      ensures this.store == store
    {
      this.store := store;
    }

    method Execute(faultId: Id, now: Time, ghost sap: Gateway, ghost asked: seq<Id>)
      returns (r: Outcome, released: nat)
      requires store.Keyed()
      modifies store
      ensures (WorldOf(store, sap, asked), r) == CloseFault(old(WorldOf(store, sap, asked)), faultId, now)
      ensures released == if r != Done then 0 else
                  |set o | o in old(store.orders) && old(store.orders)[o].faultId == faultId
                           && old(store.orders)[o].status in {RO.Created, RO.Approved, RO.WaitingFinalApproval}|
      ensures store.Keyed()
    {
      released := 0;
      var found := store.LoadFault(faultId);
      if found.None? {
        return Missing, 0;
      }
      var fault := found.value;
      var move := fault.Close();
      if move == AlreadyClosed {
        return FaultAlreadyClosed, 0;
      }
      if move != Moved {
        return ForbiddenTransition, 0;
      }
      store.SaveFault(fault);
      released := ReleaseOrdersOf(faultId, now);
      r := Done;
    }

    /** Changes and saves one loaded order, if it is in a status that closing decides. */
    method ReleaseOne(o: RO.Order, now: Time) returns (done: bool)
      requires o.id in store.orders && store.orders[o.id] == o
      modifies store`orders
      ensures done <==> IsReleased(o)
      ensures store.orders == old(store.orders)[o.id := Released(o, now)]
    {
      var order := new RO.RepairOrder(o);
      done := true;
      if order.status == RO.WaitingFinalApproval {
        var ok := order.CompleteAfterHandover(order.completedAt.GetOr(now));
        store.SaveOrder(order);
      } else if order.status == RO.Created || order.status == RO.Approved {
        var ok := order.Cancel();
        store.SaveOrder(order);
      } else {
        done := false;
        assert store.orders == store.orders[o.id := o];
      }
    }

    /** Cancels the orders that were not started and completes those that only await their final
        approval; returns how many it changed. */
    method ReleaseOrdersOf(faultId: Id, now: Time) returns (released: nat)
      requires store.Keyed()
      modifies store`orders
      ensures store.orders == ReleaseOrders(old(store.orders), faultId, now)
      ensures released == |Undecided(old(store.orders), faultId)|
    {
      hide Released, IsReleased, ReleaseOrders, Undecided;
      ghost var before := store.orders;
      ghost var seen: set<Id> := {};
      ghost var changed: set<Id> := {};
      var orders := store.ListByFault(faultId);
      released := 0;
      var i := 0;
      while i < |orders|
        invariant 0 <= i <= |orders|
        invariant forall j :: 0 <= j < i ==> orders[j].id in seen
        invariant forall j :: i <= j < |orders| ==> orders[j].id !in seen
        invariant PartlyReleased(before, store.orders, seen, changed, faultId, now)
        invariant released == |changed|
      {
        ghost var orders0 := store.orders;
        var done := ReleaseOne(orders[i], now);
        ReleaseNext(before, orders0, seen, changed, faultId, now, orders[i]);
        seen := seen + {orders[i].id};
        if done {
          released := released + 1;
          changed := changed + {orders[i].id};
        }
        i := i + 1;
      }
      forall o | o in before && before[o].faultId == faultId ensures o in seen {
        var j :| 0 <= j < |orders| && orders[j] == before[o];
      }
      AllReleased(before, store.orders, seen, changed, faultId, now);
    }
  }

  /** The orders seen so far are released, the others are as before. */
  ghost predicate PartlyReleased(before: map<Id, RO.Order>, now: map<Id, RO.Order>, seen: set<Id>, changed: set<Id>,
                                 faultId: Id, at: Time)
  {
    && now.Keys == before.Keys
    && (forall o :: o in seen ==> o in before && before[o].faultId == faultId)
    && (forall o :: o in before ==> now[o] == if o in seen then Released(before[o], at) else before[o])
    && (forall o :: o in changed <==> o in seen && IsReleased(before[o]))
  }

  lemma ReleaseNext(before: map<Id, RO.Order>, orders: map<Id, RO.Order>, seen: set<Id>, changed: set<Id>, faultId: Id,
                    at: Time, o: RO.Order)
    requires PartlyReleased(before, orders, seen, changed, faultId, at)
    requires o.id in before && o.id !in seen && before[o.id] == o && o.faultId == faultId
    ensures PartlyReleased(before, orders[o.id := Released(o, at)], seen + {o.id},
                           if IsReleased(o) then changed + {o.id} else changed, faultId, at)
    ensures o.id !in changed
  {
  }

  lemma AllReleased(before: map<Id, RO.Order>, orders: map<Id, RO.Order>, seen: set<Id>, changed: set<Id>, faultId: Id,
                    at: Time)
    requires PartlyReleased(before, orders, seen, changed, faultId, at)
    requires forall o :: o in before && before[o].faultId == faultId ==> o in seen
    ensures orders == ReleaseOrders(before, faultId, at) && changed == Undecided(before, faultId)
  {
  }

  class DistributionFaultDecisionService {
    const store: FleetStore
    const gateway: SapTransactionManager
    /** History: the faults for which SAP was asked. */
    var asked: seq<Id>

    constructor (store: FleetStore, gateway: SapTransactionManager)
      ensures this.store == store && this.gateway == gateway && asked == []
    {
      this.store := store;
      this.gateway := gateway;
      asked := [];
    }

    function State(): World
      reads this, store, gateway.repo
    {
      WorldOf(store, gateway.repo.store, asked)
    }

    method MarkUsable(faultId: Id, note: Option<string>, now: Time) returns (r: Outcome)
      requires store.Keyed()
      modifies store
      ensures (State(), r) == Workflow.MarkUsable(old(State()), faultId, note, now)
    {
      hide ReleaseOrders, Released;
      var closing := new CloseFaultService(store);
      var released;
      r, released := closing.Execute(faultId, now, gateway.repo.store, asked);
      if r != Done {
        return;
      }
      var loaded := store.LoadFault(faultId);
      var fault := loaded.value;
      if RO.Written(note) {
        fault.note := note;
        store.SaveFault(fault);
      }
      assert store.faults == CloseFault(old(State()), faultId, now).0.faults[faultId := fault.View()];
      r := store.Reactivate(fault.vehicleId, gateway.repo.store, asked);
    }

    method MarkUnusable(d: Decision) returns (r: Outcome)
      requires store.Keyed() && IndexOk(gateway.repo.store)
      requires d.newOrder !in store.orders && d.newTx !in gateway.repo.store.rows
      modifies this, store, gateway.repo
      ensures (State(), r) == Workflow.MarkUnusable(old(State()), d)
    {
      hide Execute, LiveOrders, ReplacementRequest, IndexOk;
      var loaded := store.LoadFault(d.faultId);
      if loaded.None? {
        return Missing;
      }
      var fault := loaded.value;
      if fault.status != Open {
        return NotAwaitingDecision;
      }
      var found := store.LoadVehicle(fault.vehicleId);
      if found.None? {
        return Missing;
      }
      var vehicle := found.value;
      ghost var w, f, v := State(), fault.View(), vehicle.View();
      var ok := TakeOutOfService(vehicle);
      if !ok {
        return ForbiddenTransition;
      }
      MoveToTransport(d, fault);
      EnsureRepairOrder(d, fault.vehicleId, f);
      SameRequest(d, f, v, vehicle.View());
      r := RequestReplacement(d, f, vehicle);
    }

    method TakeOutOfService(vehicle: Vehicle) returns (ok: bool)
      requires vehicle.id in store.vehicles && store.vehicles[vehicle.id] == vehicle.View()
      modifies store`vehicles, vehicle
      ensures ok <==> old(vehicle.status) !in {Inactive, Decommissioned}
      ensures vehicle.View() == if ok then old(vehicle.View()).(status := OutOfService) else old(vehicle.View())
      ensures State() == if ok then SetVehicle(old(State()), vehicle.id, OutOfService) else old(State())
    {
      ok := true;
      if vehicle.status != OutOfService {
        ok := vehicle.TransitionTo(OutOfService);
        if ok {
          store.SaveVehicle(vehicle);
        }
      } else {
        assert store.vehicles == store.vehicles[vehicle.id := vehicle.View()];
      }
    }

    method MoveToTransport(d: Decision, fault: Fault)
      requires fault.status == Open && fault.id == d.faultId
      modifies store`faults, fault
      ensures State() == old(State()).(faults := old(store.faults)[d.faultId :=
                           Noted(old(fault.View()).(status := AwaitingTransport), d.note)])
    {
      var moved := fault.MarkAwaitingTransport();
      if RO.Written(d.note) {
        fault.note := d.note;
      }
      store.SaveFault(fault);
    }

    /** Creates the order for the transport queue, unless one keeps the fault busy. */
    method EnsureRepairOrder(d: Decision, vehicleId: Id, ghost f: FaultData)
      requires store.Keyed() && d.newOrder !in store.orders
      modifies store`orders
      requires f.vehicleId == vehicleId
      ensures State() == Queued(old(State()), d, f)
    {
      var existing := store.ListByFault(d.faultId);
      var i := 0;
      while i < |existing|
        invariant 0 <= i <= |existing|
        invariant forall j :: 0 <= j < i ==> IsSpent(existing[j])
      {
        if !IsSpent(existing[i]) {
          assert existing[i].id in LiveOrders(State(), d.faultId);
          return;
        }
        i := i + 1;
      }
      forall o | o in store.orders && store.orders[o].faultId == d.faultId ensures IsSpent(store.orders[o]) {
        var j :| 0 <= j < |existing| && existing[j] == store.orders[o];
      }
      assert LiveOrders(State(), d.faultId) == {};
      var order := new RO.RepairOrder(RO.NewOrder(d.newOrder, vehicleId, d.faultId, d.decidedBy, d.now));
      store.SaveOrder(order);
    }

    /** Asks SAP for a replacement vehicle; a refused request is only logged. */
    method RequestReplacement(d: Decision, ghost f: FaultData, vehicle: Vehicle) returns (r: Outcome)
      requires IndexOk(gateway.repo.store) && d.newTx !in gateway.repo.store.rows
      requires d.faultId in store.faults && store.faults[d.faultId].description == f.description
      modifies this, gateway.repo
      ensures unchanged(store)
      ensures (State(), r) == AskForReplacement(old(State()), d, f, old(vehicle.View()))
    {
      if d.adapter.None? || OrEmpty(vehicle.driver1) == "" {
        return Done;
      }
      var request := ReplacementRequest(d, store.faults[d.faultId], vehicle.View());
      assert request == ReplacementRequest(d, f, vehicle.View());
      var answer := gateway.Execute(d.newTx, request, d.adapter.value, d.now);
      asked := asked + [d.faultId];
      r := if answer.Returned? || answer.IntegrationError? then Done else GatewayRaised(answer);
    }
  }

  /** The request does not depend on the vehicle's status. */
  lemma SameRequest(d: Decision, f: FaultData, v: VehicleData, u: VehicleData)
    requires u == v.(status := u.status)
    ensures ReplacementRequest(d, f, v) == ReplacementRequest(d, f, u) && (Asks(d, v) <==> Asks(d, u))
  {
  }

  class RejectRepairOrderByTransportService {
    const store: FleetStore

    constructor (store: FleetStore)
      ensures this.store == store
    {
      this.store := store;
    }

    method Execute(orderId: Id, reason: string, ghost sap: Gateway, ghost asked: seq<Id>) returns (r: Outcome)
      requires store.Keyed()
      modifies store
      ensures (WorldOf(store, sap, asked), r) == RejectByTransport(old(WorldOf(store, sap, asked)), orderId, reason)
    {
      var loaded := store.LoadOrder(orderId);
      if loaded.None? {
        return Missing;
      }
      var order := loaded.value;
      var ok := order.RejectByTransport(reason);
      if !ok {
        return ForbiddenTransition;
      }
      store.SaveOrder(order);
      var found := store.LoadFault(order.faultId);
      if found.None? {
        return Missing;
      }
      var fault := found.value;
      if fault.status == AwaitingTransport {
        var moved := fault.TransitionTo(Open);
        store.SaveFault(fault);
      }
      r := store.Reactivate(order.vehicleId, sap, asked);
    }
  }

  class AssignFaultService {
    const store: FleetStore

    constructor (store: FleetStore)
      ensures this.store == store
    {
      this.store := store;
    }

    method Execute(faultId: Id, technicianId: Id, ghost sap: Gateway, ghost asked: seq<Id>) returns (r: Outcome)
      requires store.Keyed()
      modifies store
      ensures r == if faultId in old(store.faults) then OutcomeOf(MoveOf(old(store.faults)[faultId].status, WithTechnician))
                   else Missing
      ensures WorldOf(store, sap, asked)
           == if faultId in old(store.faults) then WR.MoveFault(old(WorldOf(store, sap, asked)), faultId, WR.AssignTo(technicianId))
              else old(WorldOf(store, sap, asked))
    {
      var loaded := store.LoadFault(faultId);
      if loaded.None? {
        return Missing;
      }
      var fault := loaded.value;
      var move := fault.Assign(technicianId);
      if move == Moved {
        store.SaveFault(fault);
      }
      r := OutcomeOf(move);
    }
  }

  function OutcomeOf(move: FaultMove): Outcome {
    match move
    case Moved => Done
    case AlreadyClosed => FaultAlreadyClosed
    case Forbidden => ForbiddenTransition
  }

  /** What ends a repair does to its fault: a fault that is not closed yet is closed, through IN_REPAIR
      when it was still waiting or assigned. It cannot be refused. */
  class FaultAfterRepair {
    const store: FleetStore

    constructor (store: FleetStore)
      ensures this.store == store
    {
      this.store := store;
    }

    method Close(faultId: Id, ghost sap: Gateway, ghost asked: seq<Id>)
      requires store.Keyed()
      modifies store
      ensures faultId in old(store.faults) ==>
                && WorldOf(store, sap, asked)
                   == WR.MoveFault(WR.MoveFault(old(WorldOf(store, sap, asked)), faultId, WR.BeginRepair), faultId, WR.CloseOnly)
                && store.faults == old(store.faults)[faultId := old(store.faults)[faultId].(status := Closed)]
      ensures faultId !in old(store.faults) ==> WorldOf(store, sap, asked) == old(WorldOf(store, sap, asked))
    {
      var loaded := store.LoadFault(faultId);
      if loaded.None? {
        return;
      }
      var fault := loaded.value;
      if fault.status == Closed {
        assert store.faults == store.faults[faultId := fault.View()];
        return;
      }
      if fault.status == WithTechnician || fault.status == AwaitingTransport {
        var begun := fault.StartRepair();
      }
      var closed := fault.Close();
      store.SaveFault(fault);
    }
  }

  class DriverExitCenterService {
    const store: FleetStore
    const drivers: map<Id, string>
    const checklists: map<Id, Checklist>

    constructor (store: FleetStore, drivers: map<Id, string>, checklists: map<Id, Checklist>)
      ensures this.store == store && this.drivers == drivers && this.checklists == checklists
    {
      this.store, this.drivers, this.checklists := store, drivers, checklists;
    }

    method Execute(driverId: Id, vehicleId: Id, inspectionId: Id, ghost sap: Gateway, ghost asked: seq<Id>)
      returns (r: Outcome)
      requires store.Keyed()
      modifies store
      ensures (WorldOf(store, sap, asked), r)
           == ExitCenter(old(WorldOf(store, sap, asked)), vehicleId,
                         if driverId in drivers then Some(drivers[driverId]) else None,
                         if inspectionId in checklists then Some(checklists[inspectionId]) else None)
    {
      if driverId !in drivers {
        return Missing;
      }
      var loaded := store.LoadVehicle(vehicleId);
      if loaded.None? || inspectionId !in checklists {
        return Missing;
      }
      var vehicle, checklist := loaded.value, checklists[inspectionId];
      if Some(drivers[driverId]) != vehicle.driver1 && Some(drivers[driverId]) != vehicle.driver2 {
        return NotAssignedDriver;
      }
      if checklist.vehicleId != vehicle.id {
        return WrongChecklist;
      }
      if !checklist.isSubmitted {
        return ChecklistNotSubmitted;
      }
      var openFault := store.HasOpenFaultForVehicle(vehicle.id);
      var openOrder := store.HasOpenOrderForVehicle(vehicle.id);
      if openFault || openOrder {
        return OpenFlow;
      }
      if vehicle.status != Active {
        return NotActive;
      }
      var ok := vehicle.TransitionTo(ExitedCenter);
      store.SaveVehicle(vehicle);
      r := Done;
    }
  }
}
