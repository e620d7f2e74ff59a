/** The fault workflow as functions on the stored faults, vehicles, repair orders and SAP transactions. */
module Workflow {
  import opened Common
  import opened Fleet
  import RO = RepairOrders
  import opened SapTransactions
  import opened SapGatewaySpec
  import SR = SapGatewayRuns

  /** `asked` notes the faults for which a replacement vehicle was requested through the SAP gateway. */
  datatype World = World(faults: map<Id, FaultData>, vehicles: map<Id, VehicleData>, orders: map<Id, RO.Order>,
                         sap: Gateway, asked: seq<Id>)

  datatype Outcome =
    | Done
    | Missing
    | FaultAlreadyClosed
    | ForbiddenTransition
    | NotAwaitingDecision
    | NotAssignedDriver
    | WrongChecklist
    | ChecklistNotSubmitted
    | OpenFlow
    | NotActive
    | GatewayRaised(result: CallResult)

  /** Statuses in which an order no longer keeps a fault busy, as the distribution service sees it. */
  const SPENT: set<RO.Status> := {RO.Completed, RO.Cancelled, RO.RejectedByTransport, RO.RejectedByDriver}

  /** Statuses that the repository's query for a vehicle's open orders treats as finished. */
  const FINISHED: set<RO.Status> :=
    {RO.Completed, RO.Cancelled, RO.AcceptedByDriver, RO.RejectedByDriver, RO.RejectedByTransport, RO.NoRepairNeeded}

  /** The vehicle guard's own lists of terminal and of open order statuses. */
  const GUARD_TERMINAL: set<RO.Status> :=
    {RO.Completed, RO.AcceptedByDriver, RO.RejectedByDriver, RO.RejectedByTransport, RO.NoRepairNeeded, RO.Cancelled}
  const GUARD_OPEN: set<RO.Status> := set s: RO.Status | s !in GUARD_TERMINAL

  /** What closing a fault does to one of its orders. */
  function Released(o: RO.Order, now: Time): RO.Order {
    if o.status == RO.WaitingFinalApproval then o.(status := RO.Completed, completedAt := Some(o.completedAt.GetOr(now)))
    else if o.status == RO.Created || o.status == RO.Approved then o.(status := RO.Cancelled)
    else o
  }

  predicate IsReleased(o: RO.Order) {
    o.status in {RO.Created, RO.Approved, RO.WaitingFinalApproval}
  }

  function ReleaseOrders(orders: map<Id, RO.Order>, faultId: Id, now: Time): map<Id, RO.Order> {
    map id | id in orders :: if orders[id].faultId == faultId then Released(orders[id], now) else orders[id]
  }

  /** The orders of a fault that closing it has still to decide. */
  function Undecided(orders: map<Id, RO.Order>, faultId: Id): set<Id> {
    set id | id in orders && orders[id].faultId == faultId
             && orders[id].status in {RO.Created, RO.Approved, RO.WaitingFinalApproval}
  }

  predicate Closable(s: FaultStatus) {
    s in {Open, AwaitingTransport, InRepair}
  }

  function CloseFault(w: World, faultId: Id, now: Time): (World, Outcome) {
    if faultId !in w.faults then (w, Missing)
    else if w.faults[faultId].status == Closed then (w, FaultAlreadyClosed)
    else if !Closable(w.faults[faultId].status) then (w, ForbiddenTransition)
    else (w.(faults := w.faults[faultId := w.faults[faultId].(status := Closed)],
             orders := ReleaseOrders(w.orders, faultId, now)), Done)
  }

  function Noted(f: FaultData, note: Option<string>): FaultData {
    if RO.Written(note) then f.(note := note) else f
  }

  function SetVehicle(w: World, id: Id, status: VehicleStatus): World
    requires id in w.vehicles
  {
    w.(vehicles := w.vehicles[id := w.vehicles[id].(status := status)])
  }

  /** Brings a vehicle back to ACTIVE, unless it is active already. */
  function Reactivate(w: World, id: Id): (World, Outcome) {
    if id !in w.vehicles then (w, Missing)
    else if w.vehicles[id].status == Active then (w, Done)
    else if w.vehicles[id].status == Decommissioned then (w, ForbiddenTransition)
    else (SetVehicle(w, id, Active), Done)
  }

  function MarkUsable(w: World, faultId: Id, note: Option<string>, now: Time): (World, Outcome) {
    var (closed, r) := CloseFault(w, faultId, now);
    if r != Done then (w, r) else
    var f := Noted(closed.faults[faultId], note);
    Reactivate(closed.(faults := closed.faults[faultId := f]), f.vehicleId)
  }

  predicate IsSpent(o: RO.Order) {
    o.status in SPENT
  }

  /** The fault's orders that still keep it busy. */
  function LiveOrders(w: World, faultId: Id): set<Id> {
    set id | id in w.orders && w.orders[id].faultId == faultId && !IsSpent(w.orders[id])
  }

  const REPLACEMENT_PREFIX := "fault-replacement-assignment:"

  function ReplacementKey(faultId: Id): string {
    REPLACEMENT_PREFIX + faultId
  }

  /** A distribution decision, with what the request brings along: fresh identifiers, the clock, and
      the adapter (absent when SAP is not configured). */
  datatype Decision = Decision(faultId: Id, note: Option<string>, decidedBy: Id, requestId: string, newOrder: Id,
                               newTx: TxId, adapter: Option<Adapter>, requestedAt: string, now: Time)

  function ReplacementRequest(d: Decision, f: FaultData, v: VehicleData): SapGatewaySpec.Request {
    SapGatewaySpec.Request(VehicleAssignment, d.faultId, ReplacementKey(d.faultId),
      map["fault_id" := d.faultId,
          "driver_customer_number" := OrEmpty(v.driver1),
          "unavailable_vehicle_number" := v.number,
          "requested_at" := d.requestedAt,
          "reason" := if RO.Written(d.note) then d.note.value else f.description,
          "request_id" := d.requestId])
  }

  /** Whether the decision leads to a SAP request at all. */
  predicate Asks(d: Decision, v: VehicleData) {
    d.adapter.Some? && OrEmpty(v.driver1) != ""
  }

  /** The order a fault gets when none keeps it busy. */
  function Queued(w: World, d: Decision, f: FaultData): World {
    if LiveOrders(w, d.faultId) != {} then w
    else w.(orders := w.orders[d.newOrder := RO.NewOrder(d.newOrder, f.vehicleId, d.faultId, d.decidedBy, d.now)])
  }

  function AskForReplacement(w: World, d: Decision, f: FaultData, v: VehicleData): (World, Outcome) {
    if !Asks(d, v) then (w, Done) else
    var (sap, r) := Execute(w.sap, d.newTx, ReplacementRequest(d, f, v), d.adapter.value, d.now);
    (w.(sap := sap, asked := w.asked + [d.faultId]),
     if r.Returned? || r.IntegrationError? then Done else GatewayRaised(r))
  }

  function MarkUnusable(w: World, d: Decision): (World, Outcome) {
    if d.faultId !in w.faults then (w, Missing) else
    var f := w.faults[d.faultId];
    if f.status != Open then (w, NotAwaitingDecision)
    else if f.vehicleId !in w.vehicles then (w, Missing) else
    var v := w.vehicles[f.vehicleId];
    if v.status in {Inactive, Decommissioned} then (w, ForbiddenTransition) else
    var stopped := SetVehicle(w, f.vehicleId, OutOfService);
    var moved := stopped.(faults := w.faults[d.faultId := Noted(f.(status := AwaitingTransport), d.note)]);
    AskForReplacement(Queued(moved, d, f), d, f, v)
  }

  /** The transport supervisor turns a new order down: the fault goes back to distribution. */
  function RejectByTransport(w: World, orderId: Id, reason: string): (World, Outcome) {
    if orderId !in w.orders then (w, Missing)
    else if w.orders[orderId].status != RO.Created then (w, ForbiddenTransition) else
    var o := w.orders[orderId].(status := RO.RejectedByTransport, rejectionReason := Some(reason));
    var rejected := w.(orders := w.orders[orderId := o]);
    if o.faultId !in w.faults then (rejected, Missing) else
    var f := w.faults[o.faultId];
    var reopened := if f.status == AwaitingTransport
                    then rejected.(faults := w.faults[o.faultId := f.(status := Open)]) else rejected;
    Reactivate(reopened, o.vehicleId)
  }

  predicate HasOpenFault(w: World, vehicleId: Id) {
    exists f :: f in w.faults && w.faults[f].vehicleId == vehicleId && w.faults[f].status != Closed
  }

  predicate HasOpenOrder(w: World, vehicleId: Id) {
    exists o :: o in w.orders && w.orders[o].vehicleId == vehicleId && w.orders[o].status !in FINISHED
  }

  datatype Checklist = Checklist(vehicleId: Id, isSubmitted: bool)

  /** A driver takes the vehicle out; the driver's number and the checklist are what was looked up. */
  function ExitCenter(w: World, vehicleId: Id, driver: Option<string>, checklist: Option<Checklist>): (World, Outcome) {
    if driver.None? || vehicleId !in w.vehicles || checklist.None? then (w, Missing) else
    var v := w.vehicles[vehicleId];
    if driver != v.driver1 && driver != v.driver2 then (w, NotAssignedDriver)
    else if checklist.value.vehicleId != vehicleId then (w, WrongChecklist)
    else if !checklist.value.isSubmitted then (w, ChecklistNotSubmitted)
    else if HasOpenFault(w, vehicleId) || HasOpenOrder(w, vehicleId) then (w, OpenFlow)
    else if v.status != Active then (w, NotActive)
    else (SetVehicle(w, vehicleId, ExitedCenter), Done)
  }

  function ReportFault(w: World, vehicleId: Id, newFault: Id, description: string): (World, Outcome) {
    if vehicleId !in w.vehicles then (w, Missing)
    else if HasOpenFault(w, vehicleId) || HasOpenOrder(w, vehicleId) then (w, OpenFlow)
    else (w.(faults := w.faults[newFault := FaultData(newFault, vehicleId, description, Open, None, None)]), Done)
  }
}
