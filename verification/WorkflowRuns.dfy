/** Every run of the fault workflow, and what it keeps. */
module WorkflowRuns {
  import opened Common
  import opened Fleet
  import RO = RepairOrders
  import RL = RepairOrderLaws
  import opened SapTransactions
  import opened SapGatewaySpec
  import GL = SapGatewayLaws
  import GR = SapGatewayRuns
  import opened Workflow

  datatype FaultStep = AssignTo(technician: Id) | BeginRepair | CloseOnly

  /** The services, and the steps that other services may take in between. */
  datatype Step =
    | Report(vehicleId: Id, newFault: Id, description: string)
    | Usable(faultId: Id, note: Option<string>, now: Time)
    | Unusable(decision: Decision)
    | TransportRejects(orderId: Id, reason: string)
    | Exit(vehicleId: Id, driver: Option<string>, checklist: Option<Checklist>)
    | Close(faultId: Id, now: Time)
    | OnOrder(orderId: Id, op: RO.Op)
    | FollowUp(orderId: Id, via: RO.Op, newOrder: Id, createdBy: Id, now: Time)
    | OnFault(faultId: Id, move: FaultStep)
    | OnVehicle(vehicleId: Id, target: VehicleStatus)
    | OnGateway(call: GR.Op)

  predicate IsReplacementKey(key: string) {
    REPLACEMENT_PREFIX <= key
  }

  /** Identifiers are drawn fresh; other services use other keys and never set EXITED_CENTER. */
  ghost predicate Possible(w: World, s: Step) {
    match s
    case Report(_, newFault, _) => newFault !in w.faults
    case Unusable(d) => d.newOrder !in w.orders && d.newTx !in w.sap.rows
    case FollowUp(_, via, newOrder, _, _) =>
      newOrder !in w.orders && (via == RO.ConfirmHandover(false) || via.CompleteAfterHandover?)
    case OnVehicle(_, target) => target != ExitedCenter
    case OnGateway(call) => call.DoExecute? ==> !IsReplacementKey(call.request.key)
    case _ => true
  }

  function ApplyTo(w: World, orderId: Id, op: RO.Op): World
    requires orderId in w.orders
  {
    w.(orders := w.orders[orderId := RO.Apply(op, w.orders[orderId])])
  }

  function MoveFault(w: World, faultId: Id, m: FaultStep): World
    requires faultId in w.faults
  {
    var f := w.faults[faultId];
    match m
    case AssignTo(t) =>
      if MoveOf(f.status, WithTechnician) == Moved
      then w.(faults := w.faults[faultId := f.(status := WithTechnician, assignedTo := Some(t))]) else w
    case BeginRepair =>
      if MoveOf(f.status, InRepair) == Moved then w.(faults := w.faults[faultId := f.(status := InRepair)]) else w
    case CloseOnly =>
      if MoveOf(f.status, Closed) == Moved then w.(faults := w.faults[faultId := f.(status := Closed)]) else w
  }

  /** The old order ends and a new one for the same fault takes its place. */
  function Replace(w: World, orderId: Id, via: RO.Op, newOrder: Id, createdBy: Id, now: Time): World
    requires orderId in w.orders
  {
    var o := w.orders[orderId];
    if !RO.Enabled(via, o) then w else
    w.(orders := w.orders[orderId := RO.Apply(via, o)][newOrder := RO.NewOrder(newOrder, o.vehicleId, o.faultId, createdBy, now)])
  }

  ghost function Take(w: World, s: Step): World {
    if !Possible(w, s) then w else
    match s
    case Report(vehicleId, newFault, description) => ReportFault(w, vehicleId, newFault, description).0
    case Usable(faultId, note, now) => MarkUsable(w, faultId, note, now).0
    case Unusable(d) => MarkUnusable(w, d).0
    case TransportRejects(orderId, reason) => RejectByTransport(w, orderId, reason).0
    case Exit(vehicleId, driver, checklist) => ExitCenter(w, vehicleId, driver, checklist).0
    case Close(faultId, now) => CloseFault(w, faultId, now).0
    case OnOrder(orderId, op) => if orderId in w.orders then ApplyTo(w, orderId, op) else w
    case FollowUp(orderId, via, newOrder, creator, now) =>
      if orderId in w.orders then Replace(w, orderId, via, newOrder, creator, now) else w
    case OnFault(faultId, m) => if faultId in w.faults then MoveFault(w, faultId, m) else w
    case OnVehicle(v, target) =>
      if v in w.vehicles && target in VehicleAllowed(w.vehicles[v].status) then SetVehicle(w, v, target) else w
    case OnGateway(call) => w.(sap := GR.Step(w.sap, call))
  }

  /** A fleet with no faults, no orders and no SAP transactions yet. */
  ghost predicate IsStart(w: World) {
    && w.faults == map[] && w.orders == map[] && w.sap == EMPTY_GATEWAY && w.asked == []
    && forall v :: v in w.vehicles ==> w.vehicles[v].id == v
  }

  ghost function Run(w: World, steps: seq<Step>): World {
    if steps == [] then w else Take(Run(w, steps[..|steps| - 1]), steps[|steps| - 1])
  }

  /** A world that some run leads to. */
  ghost predicate Reached(w: World) {
    exists w0, steps :: IsStart(w0) && w == Run(w0, steps)
  }

  // ---------------------------------------------------------------- orders and their faults

  ghost predicate OrderLinked(w: World, o: Id)
    requires o in w.orders
  {
    var order := w.orders[o];
    && order.id == o && RL.Consistent(order)
    && order.faultId in w.faults && w.faults[order.faultId].vehicleId == order.vehicleId
  }

  ghost predicate FaultLinked(w: World, f: Id)
    requires f in w.faults
  {
    w.faults[f].id == f && w.faults[f].vehicleId in w.vehicles
  }

  ghost predicate Linked(w: World) {
    && (forall v :: v in w.vehicles ==> w.vehicles[v].id == v)
    && (forall f :: f in w.faults ==> FaultLinked(w, f))
    && (forall o :: o in w.orders ==> OrderLinked(w, o))
  }

  /** An order keeps its fault, and a spent order stays spent. */
  ghost predicate Continues(before: RO.Order, after: RO.Order) {
    && after.id == before.id && after.faultId == before.faultId && after.vehicleId == before.vehicleId
    && (RL.Consistent(before) ==> RL.Consistent(after))
    && (IsSpent(before) ==> after.status == before.status)
  }

  lemma ApplyContinues(op: RO.Op, o: RO.Order)
    ensures Continues(o, RO.Apply(op, o))
  {
    hide RO.Apply, RL.Consistent;
    ApplyKeepsIdentity(op, o);
    if RL.Consistent(o) {
      RL.OperationKeepsConsistency(op, o);
    }
  }

  lemma ApplyKeepsIdentity(op: RO.Op, o: RO.Order)
    ensures var after := RO.Apply(op, o);
            && after.id == o.id && after.faultId == o.faultId && after.vehicleId == o.vehicleId
            && (IsSpent(o) ==> after.status == o.status)
  {
    hide RO.WithoutActivity, RO.WithoutPart, RO.AmendActivity, RO.AmendPart, RO.HasActivity, RO.HasPart;
  }

  lemma ReleasedContinues(o: RO.Order, now: Time)
    ensures Continues(o, Released(o, now))
  {
  }

  /** At most one order keeps a fault busy, and none while the fault awaits its decision. */
  ghost predicate OneLiveOrder(w: World) {
    && (forall a, b | a in w.orders && b in w.orders && !IsSpent(w.orders[a]) && !IsSpent(w.orders[b]) ::
          w.orders[a].faultId == w.orders[b].faultId ==> a == b)
    && (forall o :: o in w.orders && !IsSpent(w.orders[o]) && w.orders[o].faultId in w.faults ==>
          w.faults[w.orders[o].faultId].status != Open)
  }

  predicate UnderWay(s: FaultStatus) {
    s in {AwaitingTransport, WithTechnician, InRepair}
  }

  /** A vehicle with a confirmed fault has not left the center. */
  ghost predicate NoneLeft(w: World) {
    forall f :: f in w.faults && UnderWay(w.faults[f].status) && w.faults[f].vehicleId in w.vehicles ==>
      w.vehicles[w.faults[f].vehicleId].status != ExitedCenter
  }

  ghost predicate Sound(w: World) {
    Linked(w) && OneLiveOrder(w) && NoneLeft(w)
  }

  lemma SpentStaysSpent(before: RO.Order, after: RO.Order)
    requires Continues(before, after)
    ensures IsSpent(before) ==> IsSpent(after)
  {
  }

  // Each kind of write keeps the world sound.

  lemma SoundSetVehicle(w: World, v: Id, status: VehicleStatus)
    requires Sound(w) && v in w.vehicles
    requires status == ExitedCenter ==> forall f :: f in w.faults && w.faults[f].vehicleId == v ==> !UnderWay(w.faults[f].status)
    ensures Sound(SetVehicle(w, v, status))
  {
    hide RL.Consistent, IsSpent;
    var after := SetVehicle(w, v, status);
    assert forall f :: f in after.faults ==> FaultLinked(w, f);
    assert forall o :: o in after.orders ==> OrderLinked(w, o);
  }

  lemma SoundSetFault(w: World, f: Id, data: FaultData)
    requires Sound(w) && f in w.faults
    requires data.id == f && data.vehicleId == w.faults[f].vehicleId
    requires data.status == Open ==> LiveOrders(w, f) == {}
    requires UnderWay(data.status) && !UnderWay(w.faults[f].status) ==> w.vehicles[data.vehicleId].status != ExitedCenter
    ensures Sound(w.(faults := w.faults[f := data]))
  {
    hide RL.Consistent, IsSpent;
    var after := w.(faults := w.faults[f := data]);
    assert forall g :: g in after.faults ==> FaultLinked(w, g);
    assert forall o :: o in after.orders ==> OrderLinked(w, o);
    assert forall o :: o in w.orders && w.orders[o].faultId == f && !IsSpent(w.orders[o]) ==> o in LiveOrders(w, f);
  }

  lemma SoundAddFault(w: World, f: Id, data: FaultData)
    requires Sound(w) && f !in w.faults
    requires data.id == f && data.status == Open && data.vehicleId in w.vehicles
    ensures Sound(w.(faults := w.faults[f := data]))
  {
    hide RL.Consistent, IsSpent;
    var after := w.(faults := w.faults[f := data]);
    assert forall g :: g in w.faults ==> FaultLinked(w, g);
    assert forall o :: o in after.orders ==> OrderLinked(w, o);
  }

  lemma SoundSetOrder(w: World, o: Id, order: RO.Order)
    requires Sound(w) && o in w.orders && Continues(w.orders[o], order)
    ensures Sound(w.(orders := w.orders[o := order]))
  {
    hide RL.Consistent, IsSpent;
    var after := w.(orders := w.orders[o := order]);
    assert forall g :: g in after.faults ==> FaultLinked(w, g);
    assert forall p :: p in after.orders ==> OrderLinked(w, p);
    SpentStaysSpent(w.orders[o], order);
  }

  lemma SoundAddOrder(w: World, o: Id, order: RO.Order)
    requires Sound(w) && o !in w.orders && RL.IsNew(order) && order.id == o
    requires order.faultId in w.faults && order.vehicleId == w.faults[order.faultId].vehicleId
    requires w.faults[order.faultId].status != Open && LiveOrders(w, order.faultId) == {}
    ensures Sound(w.(orders := w.orders[o := order]))
  {
    hide IsSpent;
    var after := w.(orders := w.orders[o := order]);
    assert forall g :: g in after.faults ==> FaultLinked(w, g);
    assert forall p :: p in w.orders ==> OrderLinked(w, p);
    assert forall p :: p in w.orders && w.orders[p].faultId == order.faultId && !IsSpent(w.orders[p])
             ==> p in LiveOrders(w, order.faultId);
  }

  lemma SoundRelease(w: World, faultId: Id, now: Time)
    requires Sound(w)
    ensures Sound(w.(orders := ReleaseOrders(w.orders, faultId, now)))
  {
    var after := w.(orders := ReleaseOrders(w.orders, faultId, now));
    forall p | p in w.orders ensures OrderLinked(w, p) && Continues(w.orders[p], after.orders[p]) {
      ReleasedContinues(w.orders[p], now);
    }
    assert forall g :: g in after.faults ==> FaultLinked(w, g);
  }

  lemma SoundGateway(w: World, sap: Gateway, asked: seq<Id>)
    requires Sound(w)
    ensures Sound(w.(sap := sap, asked := asked))
  {
    var after := w.(sap := sap, asked := asked);
    assert forall g :: g in after.faults ==> FaultLinked(w, g);
    assert forall o :: o in after.orders ==> OrderLinked(w, o);
  }

  lemma SoundClose(w: World, faultId: Id, now: Time)
    requires Sound(w)
    ensures Sound(CloseFault(w, faultId, now).0)
  {
    hide Sound, ReleaseOrders;
    if faultId in w.faults && Closable(w.faults[faultId].status) {
      SoundFault(w, faultId);
      SoundSetFault(w, faultId, w.faults[faultId].(status := Closed));
      SoundRelease(w.(faults := w.faults[faultId := w.faults[faultId].(status := Closed)]), faultId, now);
    }
  }

  lemma SoundFault(w: World, f: Id)
    requires Sound(w) && f in w.faults
    ensures w.faults[f].id == f && w.faults[f].vehicleId in w.vehicles
    ensures w.faults[f].status == Open ==> LiveOrders(w, f) == {}
    ensures UnderWay(w.faults[f].status) ==> w.vehicles[w.faults[f].vehicleId].status != ExitedCenter
  {
    assert FaultLinked(w, f);
  }

  lemma SoundOrder(w: World, o: Id)
    requires Sound(w) && o in w.orders
    ensures var order := w.orders[o];
            && order.id == o && RL.Consistent(order) && order.faultId in w.faults
            && order.vehicleId == w.faults[order.faultId].vehicleId
            && (!IsSpent(order) ==> LiveOrders(w, order.faultId) == {o} && w.faults[order.faultId].status != Open)
  {
    assert OrderLinked(w, o);
  }

  lemma SoundReactivate(w: World, v: Id)
    requires Sound(w)
    ensures Sound(Reactivate(w, v).0)
  {
    hide Sound;
    if v in w.vehicles {
      SoundSetVehicle(w, v, Active);
    }
  }

  lemma SoundUsable(w: World, faultId: Id, note: Option<string>, now: Time)
    requires Sound(w)
    ensures Sound(MarkUsable(w, faultId, note, now).0)
  {
    hide Sound, ReleaseOrders, Reactivate;
    SoundClose(w, faultId, now);
    var closed := CloseFault(w, faultId, now).0;
    if CloseFault(w, faultId, now).1 == Done {
      var f := Noted(closed.faults[faultId], note);
      SoundFault(closed, faultId);
      SoundSetFault(closed, faultId, f);
      SoundReactivate(closed.(faults := closed.faults[faultId := f]), f.vehicleId);
    }
  }

  /** The world just before the SAP request of an accepted unusable decision. */
  function Stopped(w: World, d: Decision): World
    requires d.faultId in w.faults && w.faults[d.faultId].vehicleId in w.vehicles
  {
    var f := w.faults[d.faultId];
    Queued(SetVehicle(w, f.vehicleId, OutOfService).(faults := w.faults[d.faultId := Noted(f.(status := AwaitingTransport), d.note)]),
           d, f)
  }

  lemma SoundStopped(w: World, d: Decision)
    requires Sound(w) && d.faultId in w.faults && w.faults[d.faultId].vehicleId in w.vehicles
    requires w.faults[d.faultId].status == Open && d.newOrder !in w.orders
    ensures Sound(Stopped(w, d))
    ensures LiveOrders(w, d.faultId) == {}
    ensures Stopped(w, d).orders
         == w.orders[d.newOrder := RO.NewOrder(d.newOrder, w.faults[d.faultId].vehicleId, d.faultId, d.decidedBy, d.now)]
  {
    hide Sound;
    var f := w.faults[d.faultId];
    SoundFault(w, d.faultId);
    var w1 := SetVehicle(w, f.vehicleId, OutOfService);
    SoundSetVehicle(w, f.vehicleId, OutOfService);
    var data := Noted(f.(status := AwaitingTransport), d.note);
    SoundSetFault(w1, d.faultId, data);
    var w2 := w1.(faults := w1.faults[d.faultId := data]);
    assert LiveOrders(w2, d.faultId) == LiveOrders(w, d.faultId);
    SoundAddOrder(w2, d.newOrder, RO.NewOrder(d.newOrder, f.vehicleId, d.faultId, d.decidedBy, d.now));
  }

  lemma SoundUnusable(w: World, d: Decision)
    requires Sound(w) && d.newOrder !in w.orders
    ensures Sound(MarkUnusable(w, d).0)
  {
    hide Sound, Execute, Queued;
    var (after, r) := MarkUnusable(w, d);
    if after != w {
      var f := w.faults[d.faultId];
      SoundStopped(w, d);
      SoundGateway(Stopped(w, d), after.sap, after.asked);
      assert after == Stopped(w, d).(sap := after.sap, asked := after.asked);
    }
  }

  lemma LiveAfterSpending(w: World, id: Id, spent: RO.Order)
    requires id in w.orders && IsSpent(spent) && spent.faultId == w.orders[id].faultId
    ensures LiveOrders(w.(orders := w.orders[id := spent]), spent.faultId) == LiveOrders(w, spent.faultId) - {id}
  {
  }

  lemma SoundReject(w: World, orderId: Id, reason: string)
    requires Sound(w)
    ensures Sound(RejectByTransport(w, orderId, reason).0)
  {
    hide Sound, Reactivate;
    if orderId in w.orders && w.orders[orderId].status == RO.Created {
      SoundOrder(w, orderId);
      var o := w.orders[orderId].(status := RO.RejectedByTransport, rejectionReason := Some(reason));
      var f := w.faults[o.faultId];
      SoundSetOrder(w, orderId, o);
      var rejected := w.(orders := w.orders[orderId := o]);
      LiveAfterSpending(w, orderId, o);
      SoundFault(w, o.faultId);
      if f.status == AwaitingTransport {
        SoundSetFault(rejected, o.faultId, f.(status := Open));
        SoundReactivate(rejected.(faults := w.faults[o.faultId := f.(status := Open)]), o.vehicleId);
      } else {
        SoundReactivate(rejected, o.vehicleId);
      }
    }
  }

  lemma SoundExit(w: World, v: Id, driver: Option<string>, checklist: Option<Checklist>)
    requires Sound(w)
    ensures Sound(ExitCenter(w, v, driver, checklist).0)
  {
    hide Sound;
    if ExitCenter(w, v, driver, checklist).1 == Done {
      assert !HasOpenFault(w, v);
      SoundSetVehicle(w, v, ExitedCenter);
    }
  }

  lemma SoundReplace(w: World, orderId: Id, via: RO.Op, newOrder: Id, creator: Id, now: Time)
    requires Sound(w) && orderId in w.orders && newOrder !in w.orders
    requires via == RO.ConfirmHandover(false) || via.CompleteAfterHandover?
    ensures Sound(Replace(w, orderId, via, newOrder, creator, now))
  {
    hide Sound, RO.Apply;
    var o := w.orders[orderId];
    if RO.Enabled(via, o) {
      ReplacedIsSpent(o, via);
      SoundOrder(w, orderId);
      ApplyContinues(via, o);
      SoundSetOrder(w, orderId, RO.Apply(via, o));
      var ended := w.(orders := w.orders[orderId := RO.Apply(via, o)]);
      LiveAfterSpending(w, orderId, RO.Apply(via, o));
      SoundAddOrder(ended, newOrder, RO.NewOrder(newOrder, o.vehicleId, o.faultId, creator, now));
    }
  }

  lemma ReplacedIsSpent(o: RO.Order, via: RO.Op)
    requires RO.Enabled(via, o) && (via == RO.ConfirmHandover(false) || via.CompleteAfterHandover?)
    ensures !IsSpent(o) && IsSpent(RO.Apply(via, o))
  {
  }

  lemma SoundMove(w: World, f: Id, m: FaultStep)
    requires Sound(w) && f in w.faults
    ensures Sound(MoveFault(w, f, m))
  {
    hide Sound;
    SoundFault(w, f);
    var data := MoveFault(w, f, m).faults[f];
    SoundSetFault(w, f, data);
    assert w.faults[f := w.faults[f]] == w.faults;
  }

  lemma StepIsSound(w: World, s: Step)
    requires Sound(w)
    ensures Sound(Take(w, s))
  {
    hide Sound, RO.Apply, MarkUsable, MarkUnusable, RejectByTransport, CloseFault, ExitCenter, Replace, MoveFault, GR.Step;
    if Possible(w, s) {
      match s
      case Report(v, newFault, description) =>
        if ReportFault(w, v, newFault, description).1 == Done {
          SoundAddFault(w, newFault, FaultData(newFault, v, description, Open, None, None));
        }
      case Usable(f, note, now) => SoundUsable(w, f, note, now);
      case Unusable(d) => SoundUnusable(w, d);
      case TransportRejects(o, reason) => SoundReject(w, o, reason);
      case Exit(v, driver, checklist) => SoundExit(w, v, driver, checklist);
      case Close(f, now) => SoundClose(w, f, now);
      case OnOrder(o, op) =>
        if o in w.orders {
          ApplyContinues(op, w.orders[o]);
          SoundSetOrder(w, o, RO.Apply(op, w.orders[o]));
        }
      case FollowUp(o, via, newOrder, creator, now) =>
        if o in w.orders {
          SoundReplace(w, o, via, newOrder, creator, now);
        }
      case OnFault(f, m) =>
        if f in w.faults {
          SoundMove(w, f, m);
        }
      case OnVehicle(v, target) =>
        if v in w.vehicles {
          SoundSetVehicle(w, v, target);
        }
      case OnGateway(call) => SoundGateway(w, GR.Step(w.sap, call), w.asked);
    }
  }

  lemma {:induction false} RunIsSound(w: World, steps: seq<Step>)
    requires IsStart(w)
    ensures Sound(Run(w, steps))
  {
    hide Take;
    if steps != [] {
      RunIsSound(w, steps[..|steps| - 1]);
      StepIsSound(Run(w, steps[..|steps| - 1]), steps[|steps| - 1]);
    }
  }

  lemma ReachedIsSound(w: World)
    requires Reached(w)
    ensures Sound(w)
  {
    hide Take, Sound, IsStart;
    var w0, steps :| IsStart(w0) && w == Run(w0, steps);
    RunIsSound(w0, steps);
  }
}
