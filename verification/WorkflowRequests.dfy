/** How often the fault workflow asks SAP for a replacement vehicle. */
module WorkflowRequests {
  import opened Common
  import opened Fleet
  import RO = RepairOrders
  import opened SapTransactions
  import opened SapGatewaySpec
  import GL = SapGatewayLaws
  import GR = SapGatewayRuns
  import opened Workflow
  import opened WorkflowRuns

  /** The fault's orders that transport has rejected. */
  function RejectedOrders(w: World, faultId: Id): set<Id> {
    set o | o in w.orders && w.orders[o].faultId == faultId && w.orders[o].status == RO.RejectedByTransport
  }

  function Requests(w: World, faultId: Id): nat {
    multiset(w.asked)[faultId]
  }

  function Decided(w: World, faultId: Id): nat {
    if faultId in w.faults && w.faults[faultId].status != Open then 1 else 0
  }

  /** At most one request per round: a new round starts only with a rejection by transport. The SAP table
      has a row for a fault exactly when SAP was asked for it. */
  ghost predicate RequestsCounted(w: World) {
    && (forall f :: f in w.faults ==> Requests(w, f) <= |RejectedOrders(w, f)| + Decided(w, f))
    && (forall f :: f in w.asked ==> f in w.faults)
    && (forall f {:trigger ReplacementKey(f)} :: ReplacementKey(f) in w.sap.byKey <==> f in w.asked)
  }

  ghost predicate SapSettled(w: World) {
    GL.AtRest(w.sap) && GR.DefaultBudget(w.sap)
  }

  lemma SameKeysSameFault(f: Id, g: Id)
    requires ReplacementKey(f) == ReplacementKey(g)
    ensures f == g
  {
    assert ReplacementKey(f)[|REPLACEMENT_PREFIX|..] == f;
    assert ReplacementKey(g)[|REPLACEMENT_PREFIX|..] == g;
  }

  lemma ReplacementKeysAreRecognized(f: Id)
    ensures IsReplacementKey(ReplacementKey(f))
  {
  }

  // ---------------------------------------------------------------- which keys a gateway call may add

  lemma SendKeepsKeys(g: Gateway, t: Tx, adapter: Adapter, payload: Payload, now: Time)
    requires t.key in g.byKey && (t.id in g.rows ==> g.rows[t.id].row.key == t.key)
    ensures Invoke(g, t, adapter, payload, now).0.byKey.Keys == g.byKey.Keys
  {
    hide Save, Logged;
    forall h: Gateway, u: Tx | KeepsKey(g, t, h) && u.id == t.id && u.key == t.key ensures KeepsKey(g, t, Save(h, u)) {
      SaveKeepsKey(g, t, h, u);
    }
    forall h: Gateway, u: Tx, c | KeepsKey(g, t, h) && u.id == t.id && u.key == t.key ensures KeepsKey(g, t, Logged(h, u, c)) {
      LogKeepsKey(g, t, h, u, c);
    }
  }

  /** Nothing but this transaction's row was written, and under its own key. */
  predicate KeepsKey(g: Gateway, t: Tx, h: Gateway) {
    h.byKey.Keys == g.byKey.Keys && t.key in h.byKey && (t.id in h.rows ==> h.rows[t.id].row.key == t.key)
  }

  lemma SaveKeepsKey(g: Gateway, t: Tx, h: Gateway, u: Tx)
    requires KeepsKey(g, t, h) && u.id == t.id && u.key == t.key
    ensures KeepsKey(g, t, Save(h, u))
  {
  }

  lemma LogKeepsKey(g: Gateway, t: Tx, h: Gateway, u: Tx, c: Call)
    requires KeepsKey(g, t, h) && u.id == t.id && u.key == t.key
    ensures KeepsKey(g, t, Logged(h, u, c))
  {
  }

  lemma ExecuteAddsItsKey(g: Gateway, newId: TxId, q: SapGatewaySpec.Request, adapter: Adapter, now: Time)
    requires GL.AtRest(g) && newId !in g.rows
    ensures Execute(g, newId, q, adapter, now).0.byKey.Keys == g.byKey.Keys + {q.key}
  {
    hide Invoke, GL.EntryAtRest;
    if q.key in g.byKey {
      var t := GL.Resumed(g.byKey[q.key], g.rows[g.byKey[q.key]].row, q.payload);
      SendKeepsKeys(Save(g, t), t, adapter, q.payload, now);
    } else {
      GL.ExecuteNewKey(g, newId, q, adapter, now);
    }
  }

  lemma RetryKeepsKeys(g: Gateway, id: TxId, adapter: Adapter, now: Time)
    requires IndexOk(g)
    ensures Retry(g, id, adapter, now).0.byKey.Keys == g.byKey.Keys
  {
    hide Invoke;
    if id in g.rows {
      var t := GL.Resumed(id, g.rows[id].row, g.rows[id].row.request);
      SendKeepsKeys(Save(g, t), t, adapter, t.request, now);
    }
  }

  lemma SweepKeepsKeys(g: Gateway, pending: seq<Tx>, adapters: map<ObjectType, Adapter>, now: Time)
    requires GL.AtRest(g)
    ensures SweepOver(g, pending, adapters, now).0.byKey.Keys == g.byKey.Keys
    decreases |pending|
  {
    hide Retry, GL.EntryAtRest;
    if pending != [] && pending[0].objectType !in adapters {
      SweepKeepsKeys(g, pending[1..], adapters, now);
    } else if pending != [] {
      var adapter := adapters[pending[0].objectType];
      RetryKeepsKeys(g, pending[0].id, adapter, now);
      GL.RetryKeepsRest(g, pending[0].id, adapter, now);
      SweepKeepsKeys(Retry(g, pending[0].id, adapter, now).0, pending[1..], adapters, now);
    }
  }

  lemma CallAddsOnlyItsKey(g: Gateway, call: GR.Op)
    requires GL.AtRest(g)
    ensures g.byKey.Keys <= GR.Step(g, call).byKey.Keys
    ensures GR.Step(g, call).byKey.Keys <= g.byKey.Keys + if call.DoExecute? then {call.request.key} else {}
  {
    hide GL.AtRest, Execute, Retry, SweepOver, IsPendingListing;
    if GR.Possible(g, call) {
      match call
      case DoExecute(newId, q, adapter, now) => ExecuteAddsItsKey(g, newId, q, adapter, now);
      case DoRetry(id, adapter, now) => IndexAtRest(g); RetryKeepsKeys(g, id, adapter, now);
      case DoSweep(pending, adapters, now) => SweepKeepsKeys(g, pending, adapters, now);
    }
  }

  lemma IndexAtRest(g: Gateway)
    requires GL.AtRest(g)
    ensures IndexOk(g)
  {
  }

  // ---------------------------------------------------------------- steps

  /** No rejected order is forgotten, no fault is reopened, and SAP is not asked. */
  ghost predicate NoNewRound(w: World, after: World) {
    && after.asked == w.asked
    && (forall f {:trigger ReplacementKey(f)} :: ReplacementKey(f) in after.sap.byKey <==> ReplacementKey(f) in w.sap.byKey)
    && (forall f :: f in w.faults ==> f in after.faults && Decided(w, f) <= Decided(after, f))
    && (forall o :: o in w.orders && w.orders[o].status == RO.RejectedByTransport ==>
          o in after.orders && after.orders[o].faultId == w.orders[o].faultId
          && after.orders[o].status == RO.RejectedByTransport)
  }

  lemma RejectionsRemain(w: World, after: World, f: Id)
    requires forall o :: o in w.orders && w.orders[o].status == RO.RejectedByTransport ==>
               o in after.orders && after.orders[o].faultId == w.orders[o].faultId
               && after.orders[o].status == RO.RejectedByTransport
    ensures RejectedOrders(w, f) <= RejectedOrders(after, f)
    ensures |RejectedOrders(w, f)| <= |RejectedOrders(after, f)|
  {
    SubsetIsSmaller(RejectedOrders(w, f), RejectedOrders(after, f));
  }

  lemma QuietStepCounts(w: World, after: World)
    requires RequestsCounted(w) && NoNewRound(w, after)
    ensures RequestsCounted(after)
  {
    forall f | f in after.faults ensures Requests(after, f) <= |RejectedOrders(after, f)| + Decided(after, f) {
      RejectionsRemain(w, after, f);
      if f !in w.faults {
        assert f !in w.asked;
      }
    }
  }

  lemma RejectionsSurviveApply(op: RO.Op, o: RO.Order)
    requires o.status == RO.RejectedByTransport
    ensures RO.Apply(op, o).status == RO.RejectedByTransport && RO.Apply(op, o).faultId == o.faultId
  {
  }

  lemma QuietClose(w: World, f: Id, now: Time)
    ensures NoNewRound(w, CloseFault(w, f, now).0)
  {
    hide ReplacementKey;
  }

  lemma QuietReactivate(w: World, v: Id)
    ensures NoNewRound(w, Reactivate(w, v).0)
  {
  }

  lemma QuietNote(w: World, f: Id, note: Option<string>)
    requires f in w.faults
    ensures NoNewRound(w, w.(faults := w.faults[f := Noted(w.faults[f], note)]))
  {
  }

  lemma QuietChain(a: World, b: World, c: World)
    requires NoNewRound(a, b) && NoNewRound(b, c)
    ensures NoNewRound(a, c)
  {
  }

  lemma QuietUsable(w: World, f: Id, note: Option<string>, now: Time)
    ensures NoNewRound(w, MarkUsable(w, f, note, now).0)
  {
    hide NoNewRound, Reactivate, ReleaseOrders;
    QuietClose(w, f, now);
    var (closed, r) := CloseFault(w, f, now);
    if r == Done {
      var data := Noted(closed.faults[f], note);
      var noted := closed.(faults := closed.faults[f := data]);
      QuietNote(closed, f, note);
      QuietReactivate(noted, data.vehicleId);
      QuietChain(w, closed, noted);
      QuietChain(w, noted, Reactivate(noted, data.vehicleId).0);
    }
  }

  lemma QuietOrder(w: World, o: Id, op: RO.Op)
    requires o in w.orders
    ensures NoNewRound(w, ApplyTo(w, o, op))
  {
    hide RO.Apply;
    if w.orders[o].status == RO.RejectedByTransport {
      RejectionsSurviveApply(op, w.orders[o]);
    }
  }

  lemma QuietFollowUp(w: World, o: Id, via: RO.Op, newOrder: Id, creator: Id, now: Time)
    requires o in w.orders && newOrder !in w.orders
    requires via == RO.ConfirmHandover(false) || via.CompleteAfterHandover?
    ensures NoNewRound(w, Replace(w, o, via, newOrder, creator, now))
  {
    hide RO.Apply, RO.NewOrder, ReplacementKey;
  }

  lemma QuietMove(w: World, f: Id, m: FaultStep)
    requires f in w.faults
    ensures NoNewRound(w, MoveFault(w, f, m))
  {
  }

  lemma QuietVehicle(w: World, v: Id, status: VehicleStatus)
    requires v in w.vehicles
    ensures NoNewRound(w, SetVehicle(w, v, status))
  {
  }

  lemma QuietReport(w: World, v: Id, f: Id, description: string)
    requires f !in w.faults
    ensures NoNewRound(w, ReportFault(w, v, f, description).0)
  {
  }

  lemma QuietSteps(w: World, s: Step)
    requires Possible(w, s) && !s.Unusable? && !s.TransportRejects? && !s.OnGateway?
    ensures NoNewRound(w, Take(w, s))
  {
    hide NoNewRound, RO.Apply, MarkUsable, CloseFault, Replace, MoveFault, ReportFault, ApplyTo;
    QuietChainStart(w);
    match s
    case Report(v, f, description) => QuietReport(w, v, f, description);
    case Usable(f, note, now) => QuietUsable(w, f, note, now);
    case Close(f, now) => QuietClose(w, f, now);
    case Exit(v, _, _) => if v in w.vehicles { QuietVehicle(w, v, ExitedCenter); }
    case OnOrder(o, op) => if o in w.orders { QuietOrder(w, o, op); }
    case FollowUp(o, via, n, creator, now) => if o in w.orders { QuietFollowUp(w, o, via, n, creator, now); }
    case OnFault(f, m) => if f in w.faults { QuietMove(w, f, m); }
    case OnVehicle(v, target) => if v in w.vehicles { QuietVehicle(w, v, target); }
  }

  lemma QuietChainStart(w: World)
    ensures NoNewRound(w, w)
  {
  }

  lemma GatewayStepCounts(w: World, call: GR.Op)
    requires RequestsCounted(w) && SapSettled(w) && Possible(w, OnGateway(call))
    ensures NoNewRound(w, w.(sap := GR.Step(w.sap, call)))
  {
    hide GR.Step, GL.AtRest, GR.DefaultBudget, ReplacementKey, IsReplacementKey, RequestsCounted;
    CallAddsOnlyItsKey(w.sap, call);
    forall f ensures ReplacementKey(f) in GR.Step(w.sap, call).byKey <==> ReplacementKey(f) in w.sap.byKey {
      ReplacementKeysAreRecognized(f);
    }
  }

  /** The world after a rejection, before the vehicle is reactivated. */
  function Reopened(w: World, orderId: Id, reason: string): World
    requires orderId in w.orders && w.orders[orderId].faultId in w.faults
  {
    var o := w.orders[orderId].(status := RO.RejectedByTransport, rejectionReason := Some(reason));
    var f := w.faults[o.faultId];
    w.(orders := w.orders[orderId := o],
       faults := if f.status == AwaitingTransport then w.faults[o.faultId := f.(status := Open)] else w.faults)
  }

  lemma ReopenedIsRejected(w: World, orderId: Id, reason: string, f: Id)
    requires orderId in w.orders && w.orders[orderId].faultId in w.faults && w.orders[orderId].status == RO.Created
    ensures RejectedOrders(Reopened(w, orderId, reason), f)
         == RejectedOrders(w, f) + if w.orders[orderId].faultId == f then {orderId} else {}
    ensures orderId !in RejectedOrders(w, f)
  {
  }

  lemma ReopenedIsCounted(w: World, orderId: Id, reason: string, f: Id)
    requires RequestsCounted(w) && orderId in w.orders && w.orders[orderId].faultId in w.faults && f in w.faults
    requires w.orders[orderId].status == RO.Created
    ensures var after := Reopened(w, orderId, reason);
            Requests(after, f) <= |RejectedOrders(after, f)| + Decided(after, f)
  {
    hide RejectedOrders, ReplacementKey;
    ReopenedIsRejected(w, orderId, reason, f);
    assert RejectedOrders(w, f) + {} == RejectedOrders(w, f);
  }

  lemma ReopenedCounts(w: World, orderId: Id, reason: string)
    requires RequestsCounted(w) && orderId in w.orders && w.orders[orderId].faultId in w.faults
    requires w.orders[orderId].status == RO.Created
    ensures RequestsCounted(Reopened(w, orderId, reason))
  {
    hide RejectedOrders, Requests, Decided, ReplacementKey;
    var after := Reopened(w, orderId, reason);
    forall f | f in after.faults ensures Requests(after, f) <= |RejectedOrders(after, f)| + Decided(after, f) {
      ReopenedIsCounted(w, orderId, reason, f);
    }
  }

  lemma RejectionCounts(w: World, orderId: Id, reason: string)
    requires RequestsCounted(w) && Sound(w)
    ensures RequestsCounted(RejectByTransport(w, orderId, reason).0)
  {
    hide Sound, RequestsCounted, NoNewRound, Reactivate;
    if orderId in w.orders && w.orders[orderId].status == RO.Created {
      SoundOrder(w, orderId);
      ReopenedCounts(w, orderId, reason);
      var reopened := Reopened(w, orderId, reason);
      QuietReactivate(reopened, w.orders[orderId].vehicleId);
      QuietStepCounts(reopened, Reactivate(reopened, w.orders[orderId].vehicleId).0);
    }
  }

  lemma UnusableKeepsOrders(w: World, d: Decision)
    requires Possible(w, Unusable(d))
    ensures var after := MarkUnusable(w, d).0;
            forall o :: o in w.orders ==> o in after.orders && after.orders[o] == w.orders[o]
  {
    hide Execute, LiveOrders, ReplacementRequest, RO.NewOrder;
  }

  lemma UnusableIsADecision(w: World, d: Decision, g: Id)
    ensures var after := MarkUnusable(w, d).0;
            && (after.asked == w.asked || (after.asked == w.asked + [d.faultId] && after != w))
            && (after != w && g == d.faultId ==> Decided(w, g) == 0 && Decided(after, g) == 1)
            && (g != d.faultId || after == w ==> Decided(after, g) == Decided(w, g))
  {
    hide Execute, LiveOrders, ReplacementRequest, RO.NewOrder, Asks;
  }

  lemma OneMoreAsked(w: World, after: World, f: Id, g: Id)
    requires after.asked == w.asked + [f]
    ensures Requests(after, g) == Requests(w, g) + if g == f then 1 else 0
  {
    assert multiset(w.asked + [f]) == multiset(w.asked) + multiset{f};
  }

  lemma UnusableIsOneRequest(w: World, d: Decision, g: Id)
    requires RequestsCounted(w) && Possible(w, Unusable(d)) && g in w.faults
    ensures var after := MarkUnusable(w, d).0;
            Requests(after, g) <= |RejectedOrders(after, g)| + Decided(after, g)
  {
    hide MarkUnusable, Decided, RejectedOrders;
    var after := MarkUnusable(w, d).0;
    UnusableKeepsOrders(w, d);
    UnusableIsADecision(w, d, g);
    RejectionsRemain(w, after, g);
    if after.asked != w.asked {
      OneMoreAsked(w, after, d.faultId, g);
    }
  }

  lemma UnusableCounts(w: World, d: Decision)
    requires RequestsCounted(w) && Sound(w) && SapSettled(w) && Possible(w, Unusable(d))
    ensures RequestsCounted(MarkUnusable(w, d).0)
  {
    hide Sound, GL.AtRest, Execute, LiveOrders, Requests, RejectedOrders;
    var after := MarkUnusable(w, d).0;
    forall g | g in after.faults ensures Requests(after, g) <= |RejectedOrders(after, g)| + Decided(after, g) {
      UnusableIsOneRequest(w, d, g);
    }
    if after != w {
      var f, v := w.faults[d.faultId], w.vehicles[w.faults[d.faultId].vehicleId];
      if Asks(d, v) {
        ExecuteAddsItsKey(w.sap, d.newTx, ReplacementRequest(d, f, v), d.adapter.value, d.now);
      }
      forall g ensures ReplacementKey(g) in after.sap.byKey <==> g in after.asked {
        if ReplacementKey(g) in after.sap.byKey && ReplacementKey(g) !in w.sap.byKey {
          SameKeysSameFault(g, d.faultId);
        }
      }
    }
  }

  lemma StepSettlesSap(w: World, s: Step)
    requires SapSettled(w)
    ensures SapSettled(Take(w, s))
  {
    hide GL.AtRest, GR.Step, Execute, LiveOrders, ReplacementRequest, ReleaseOrders, RO.Apply, HasOpenFault, HasOpenOrder;
    if Possible(w, s) {
      match s
      case Unusable(d) =>
        if MarkUnusable(w, d).0.sap != w.sap {
          var f := w.faults[d.faultId];
          UnusableIsOneCall(w, d);
          GR.StepKeepsRest(w.sap, ReplacementCall(w, d));
        }
      case OnGateway(call) => GR.StepKeepsRest(w.sap, call);
      case _ => assert Take(w, s).sap == w.sap;
    }
  }

  function ReplacementCall(w: World, d: Decision): GR.Op
    requires d.faultId in w.faults && w.faults[d.faultId].vehicleId in w.vehicles && d.adapter.Some?
  {
    var f := w.faults[d.faultId];
    GR.DoExecute(d.newTx, ReplacementRequest(d, f, w.vehicles[f.vehicleId]), d.adapter.value, d.now)
  }

  lemma UnusableIsOneCall(w: World, d: Decision)
    requires Possible(w, Unusable(d)) && MarkUnusable(w, d).0.sap != w.sap
    ensures d.faultId in w.faults && w.faults[d.faultId].vehicleId in w.vehicles && d.adapter.Some?
    ensures MarkUnusable(w, d).0.sap == GR.Step(w.sap, ReplacementCall(w, d))
  {
    hide Execute;
  }

  lemma StepCounts(w: World, s: Step)
    requires RequestsCounted(w) && Sound(w) && SapSettled(w)
    ensures RequestsCounted(Take(w, s))
  {
    hide Sound, SapSettled, RequestsCounted, NoNewRound;
    if !Possible(w, s) {
    } else if s.Unusable? {
      UnusableCounts(w, s.decision);
    } else if s.TransportRejects? {
      RejectionCounts(w, s.orderId, s.reason);
    } else {
      if s.OnGateway? {
        GatewayStepCounts(w, s.call);
      } else {
        QuietSteps(w, s);
      }
      QuietStepCounts(w, Take(w, s));
    }
  }

  lemma {:induction false} RunCounts(w: World, steps: seq<Step>)
    requires IsStart(w)
    ensures RequestsCounted(Run(w, steps)) && SapSettled(Run(w, steps))
  {
    hide Take, Sound, GL.EntryAtRest;
    if steps != [] {
      var before := Run(w, steps[..|steps| - 1]);
      RunCounts(w, steps[..|steps| - 1]);
      RunIsSound(w, steps[..|steps| - 1]);
      StepCounts(before, steps[|steps| - 1]);
      StepSettlesSap(before, steps[|steps| - 1]);
    }
  }

  lemma ReachedIsCounted(w: World)
    requires Reached(w)
    ensures RequestsCounted(w) && SapSettled(w)
  {
    hide Take, Sound, IsStart, RequestsCounted, SapSettled;
    var w0, steps :| IsStart(w0) && w == Run(w0, steps);
    RunCounts(w0, steps);
  }
}
