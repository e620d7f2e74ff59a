/** The rounds of a fault: exactly how often SAP is asked, and exactly when an OPEN fault has a SAP row. */
module WorkflowRounds {
  import opened Common
  import opened Fleet
  import RO = RepairOrders
  import opened SapTransactions
  import opened SapGatewaySpec
  import GL = SapGatewayLaws
  import GR = SapGatewayRuns
  import opened Workflow
  import opened WorkflowRuns
  import opened WorkflowRequests
  import opened WorkflowLaws

  // ---------------------------------------------------------------- rows and requests

  /** In every run a fault has a row under its replacement key exactly when SAP was asked for it. */
  lemma RowsAreRequests(w: World, f: Id)
    requires Reached(w)
    ensures ReplacementKey(f) in w.sap.byKey <==> f in w.asked
  {
    hide Reached, SapSettled;
    ReachedIsCounted(w);
  }

  /** The step is a decision on this fault that is accepted and asks SAP. */
  ghost predicate IsAskingDecision(w: World, s: Step, f: Id) {
    && s.Unusable? && s.decision.faultId == f && Possible(w, s) && !RefusesDecision(w, s.decision)
    && Asks(s.decision, w.vehicles[w.faults[f].vehicleId])
  }

  ghost function AskingDecisions(w0: World, steps: seq<Step>, f: Id): nat {
    if steps == [] then 0 else
    var last := |steps| - 1;
    AskingDecisions(w0, steps[..last], f) + if IsAskingDecision(Run(w0, steps[..last]), steps[last], f) then 1 else 0
  }

  lemma DecisionAsks(w: World, d: Decision)
    ensures MarkUnusable(w, d).0.asked
         == if !RefusesDecision(w, d) && Asks(d, w.vehicles[w.faults[d.faultId].vehicleId]) then w.asked + [d.faultId]
            else w.asked
  {
    hide Execute, LiveOrders, ReplacementRequest, RO.NewOrder, Asks;
  }

  lemma OthersDoNotAsk(w: World, s: Step)
    requires RequestsCounted(w) && SapSettled(w) && !s.Unusable?
    ensures Take(w, s).asked == w.asked
  {
    if Possible(w, s) {
      if s.TransportRejects? {
        hide *;
        RejectionIsQuiet(w, s.orderId, s.reason);
        TakesRejection(w, s.orderId, s.reason);
      } else if s.OnGateway? {
      } else {
        hide Take;
        QuietSteps(w, s);
      }
    }
  }

  lemma TakesRejection(w: World, orderId: Id, reason: string)
    ensures Take(w, TransportRejects(orderId, reason)) == RejectByTransport(w, orderId, reason).0
  {
  }

  lemma RejectionIsQuiet(w: World, orderId: Id, reason: string)
    ensures var after := RejectByTransport(w, orderId, reason).0;
            after.asked == w.asked && after.sap == w.sap && after.orders.Keys == w.orders.Keys
  {
  }

  lemma StepRequests(w: World, s: Step, f: Id)
    requires RequestsCounted(w) && SapSettled(w)
    ensures Requests(Take(w, s), f) == Requests(w, f) + if IsAskingDecision(w, s, f) then 1 else 0
  {
    hide RequestsCounted, SapSettled, MarkUnusable, RefusesDecision, Asks;
    if !s.Unusable? {
      hide Take;
      OthersDoNotAsk(w, s);
    } else if Possible(w, s) {
      DecisionAsks(w, s.decision);
      if Take(w, s).asked != w.asked {
        hide Take;
        OneMoreAsked(w, Take(w, s), s.decision.faultId, f);
      }
    }
  }

  /** In every run SAP has been asked for a fault exactly as often as a decision on it was accepted and
      asked. */
  lemma {:induction false} RequestsAreAskingDecisions(w0: World, steps: seq<Step>, f: Id)
    requires IsStart(w0)
    ensures Requests(Run(w0, steps), f) == AskingDecisions(w0, steps, f)
  {
    hide Take, RequestsCounted, SapSettled, IsAskingDecision;
    if steps != [] {
      var last := |steps| - 1;
      RequestsAreAskingDecisions(w0, steps[..last], f);
      RunCounts(w0, steps[..last]);
      StepRequests(Run(w0, steps[..last]), steps[last], f);
    }
  }

  // ---------------------------------------------------------------- OPEN faults with a row

  predicate OpenWithRow(w: World, f: Id) {
    f in w.faults && w.faults[f].status == Open && ReplacementKey(f) in w.sap.byKey
  }

  /** Transport rejects a new order of the fault while the fault waits for transport and has a row. */
  predicate ReopensWithRow(w: World, s: Step, f: Id) {
    && s.TransportRejects? && s.orderId in w.orders
    && w.orders[s.orderId].status == RO.Created && w.orders[s.orderId].faultId == f
    && f in w.faults && w.faults[f].status == AwaitingTransport && ReplacementKey(f) in w.sap.byKey
  }

  lemma QuietStepOpensNone(w: World, after: World, f: Id)
    requires RequestsCounted(w) && NoNewRound(w, after) && !OpenWithRow(w, f)
    ensures !OpenWithRow(after, f)
  {
    assert f !in w.faults ==> f !in w.asked;
  }

  lemma DecisionOpensNone(w: World, d: Decision, f: Id)
    requires RequestsCounted(w) && RequestsCounted(MarkUnusable(w, d).0) && !OpenWithRow(w, f)
    ensures !OpenWithRow(MarkUnusable(w, d).0, f)
  {
    hide MarkUnusable, Requests, RejectedOrders;
    var after := MarkUnusable(w, d).0;
    UnusableIsADecision(w, d, f);
    assert f !in w.faults ==> f !in w.asked;
    if f != d.faultId {
      assert f in after.asked <==> f in w.asked;
    }
  }

  lemma RejectionOpens(w: World, orderId: Id, reason: string, f: Id)
    requires Sound(w)
    ensures !OpenWithRow(w, f) && OpenWithRow(RejectByTransport(w, orderId, reason).0, f)
       <==> ReopensWithRow(w, TransportRejects(orderId, reason), f)
  {
    hide Sound;
    if orderId in w.orders {
      SoundOrder(w, orderId);
    }
  }

  /** In every run an OPEN fault comes to have a row by one step only, and by that step always: transport
      rejects a new order of the fault while the fault waits for transport and has a row. */
  lemma WhenAnOpenFaultGetsARow(w: World, s: Step, f: Id)
    requires Reached(w) && Possible(w, s)
    ensures !OpenWithRow(w, f) && OpenWithRow(Take(w, s), f) <==> ReopensWithRow(w, s, f)
  {
    hide Reached, Sound, RequestsCounted, SapSettled, NoNewRound, OpenWithRow, MarkUnusable, RejectByTransport;
    ReachedIsSound(w);
    ReachedIsCounted(w);
    if s.TransportRejects? {
      RejectionOpens(w, s.orderId, s.reason, f);
    } else if !OpenWithRow(w, f) {
      if s.Unusable? {
        UnusableCounts(w, s.decision);
        DecisionOpensNone(w, s.decision, f);
      } else {
        if s.OnGateway? {
          GatewayStepCounts(w, s.call);
        } else {
          QuietSteps(w, s);
        }
        hide Take;
        QuietStepOpensNone(w, Take(w, s), f);
      }
    }
  }

  ghost predicate NeverOpenWithRow(w0: World, steps: seq<Step>, f: Id) {
    !OpenWithRow(Run(w0, steps), f) && (steps == [] || NeverOpenWithRow(w0, steps[..|steps| - 1], f))
  }

  ghost predicate NeverReopensWithRow(w0: World, steps: seq<Step>, f: Id) {
    steps == [] ||
    var last := |steps| - 1;
    NeverReopensWithRow(w0, steps[..last], f) && !ReopensWithRow(Run(w0, steps[..last]), steps[last], f)
  }

  /** The fault is without a row whenever it is OPEN, throughout a run, if and only if no step of the run is
      such a rejection. */
  lemma {:induction false} NoRowWhileOpenIff(w0: World, steps: seq<Step>, f: Id)
    requires IsStart(w0)
    ensures NeverOpenWithRow(w0, steps, f) <==> NeverReopensWithRow(w0, steps, f)
  {
    hide OpenWithRow, ReopensWithRow, Take, IsStart;
    if steps == [] {
      NothingOpenAtStart(w0, f);
    } else {
      var last := |steps| - 1;
      NoRowWhileOpenIff(w0, steps[..last], f);
      if NeverOpenWithRow(w0, steps[..last], f) {
        StepInRun(w0, steps[..last], steps[last], f);
      }
    }
  }

  lemma NothingOpenAtStart(w0: World, f: Id)
    requires IsStart(w0)
    ensures !OpenWithRow(Run(w0, []), f)
  {
  }

  lemma StepInRun(w0: World, steps: seq<Step>, s: Step, f: Id)
    requires IsStart(w0) && !OpenWithRow(Run(w0, steps), f)
    ensures OpenWithRow(Take(Run(w0, steps), s), f) <==> ReopensWithRow(Run(w0, steps), s, f)
  {
    hide OpenWithRow, Run;
    var w := Run(w0, steps);
    if Possible(w, s) {
      assert Reached(w);
      WhenAnOpenFaultGetsARow(w, s, f);
    }
  }

  // ---------------------------------------------------------------- later rounds

  /** A decision on a fault whose row is neither missing nor failed with budget left never reaches the
      adapter: SAP's table stays as it is, and the decision is answered normally exactly when a
      replacement was already granted. */
  lemma LaterRoundIsReplayed(w: World, d: Decision)
    requires Reached(w) && Possible(w, Unusable(d)) && !RefusesDecision(w, d)
    requires Asks(d, w.vehicles[w.faults[d.faultId].vehicleId])
    requires GR.EntryFor(w.sap, ReplacementKey(d.faultId)).Some?
    ensures var row := GR.EntryFor(w.sap, ReplacementKey(d.faultId)).value.row;
            var (after, r) := MarkUnusable(w, d);
            row.status != Failed || row.retryCount >= MAX_RETRY_ATTEMPTS ==>
              && after.sap == w.sap && after.asked == w.asked + [d.faultId]
              && (r == Done <==> row.status == Success)
  {
    hide Reached, Execute, GL.AtRest, GR.DefaultBudget, LiveOrders, ReplacementKey, RequestsCounted;
    ReachedIsCounted(w);
    var f := w.faults[d.faultId];
    var q := ReplacementRequest(d, f, w.vehicles[f.vehicleId]);
    GR.KnownKey(w.sap, q.key);
    GR.ExecuteOnKnownKey(w.sap, d.newTx, q, d.adapter.value, d.now);
  }

  // ---------------------------------------------------------------- what SAP is sent

  /** The request of a decision, field by field: who needs a vehicle, instead of which one, and why. */
  predicate TellsSap(request: Payload, d: Decision, driver: string, vehicleNumber: string, description: string) {
    && request.Keys == {"fault_id", "driver_customer_number", "unavailable_vehicle_number", "requested_at", "reason",
                        "request_id"}
    && request["fault_id"] == d.faultId
    && request["driver_customer_number"] == driver
    && request["unavailable_vehicle_number"] == vehicleNumber
    && request["requested_at"] == d.requestedAt
    && request["request_id"] == d.requestId
    && request["reason"] == if d.note.Some? && d.note.value != "" then d.note.value else description
  }

  /** In every run, an accepted decision for a vehicle with a driver, when SAP is configured and the fault's
      key is new or failed with budget left, makes one more call, which tells SAP all of that; a new row
      says what it is about. Without an adapter or a driver SAP's table stays as it is. */
  lemma WhatSapIsSent(w: World, d: Decision)
    requires Reached(w) && Possible(w, Unusable(d)) && !RefusesDecision(w, d)
    ensures var f := w.faults[d.faultId];
            var v := w.vehicles[f.vehicleId];
            var key := "fault-replacement-assignment:" + d.faultId;
            var before, after := GR.EntryFor(w.sap, key), GR.EntryFor(MarkUnusable(w, d).0.sap, key);
            if d.adapter.None? || v.driver1 == None || v.driver1 == Some("") then MarkUnusable(w, d).0.sap == w.sap
            else if before == None || (before.value.row.status == Failed && before.value.row.retryCount < 3) then
              && after.Some? && after.value.calls != []
              && after.value.calls[..|after.value.calls| - 1] == (if before == None then [] else before.value.calls)
              && TellsSap(after.value.calls[|after.value.calls| - 1].request, d, v.driver1.value, v.number, f.description)
              && after.value.row.request == after.value.calls[|after.value.calls| - 1].request
              && (before == None ==>
                    && after.value.row.objectType == VehicleAssignment && after.value.row.objectId == d.faultId
                    && after.value.row.key == key)
            else MarkUnusable(w, d).0.sap == w.sap
  {
    hide Reached, Execute, GL.AtRest, GR.DefaultBudget, GR.EntryFor, LiveOrders, RequestsCounted, TellsSap,
         ReplacementRequest, ReplacementKey, RO.NewOrder;
    ReachedIsCounted(w);
    var f := w.faults[d.faultId];
    var v := w.vehicles[f.vehicleId];
    RequestTells(d, f, v);
    if Asks(d, v) {
      GR.ExecuteAtRest(w.sap, d.newTx, ReplacementRequest(d, f, v), d.adapter.value, d.now);
    }
  }

  lemma RequestTells(d: Decision, f: FaultData, v: VehicleData)
    ensures var q := ReplacementRequest(d, f, v);
            && q.key == "fault-replacement-assignment:" + d.faultId
            && q.objectType == VehicleAssignment && q.objectId == d.faultId
            && TellsSap(q.payload, d, OrEmpty(v.driver1), v.number, f.description)
  {
  }

  function SecondDecision(): Decision {
    FirstDecision().(newOrder := "o2", newTx := "t2")
  }

  lemma ExecuteAddsOneRow(g: Gateway, newId: TxId, q: SapGatewaySpec.Request, adapter: Adapter, now: Time)
    ensures Execute(g, newId, q, adapter, now).0.rows.Keys <= g.rows.Keys + {newId}
  {
  }

  /** A later decision after a rejection is accepted again, and asks again. */
  lemma SecondRound(w: World, d: Decision, reason: string, e: Decision)
    requires Reached(w) && Possible(w, Unusable(d)) && !RefusesDecision(w, d)
    requires Asks(d, w.vehicles[w.faults[d.faultId].vehicleId])
    requires e == d.(newOrder := e.newOrder, newTx := e.newTx)
    requires e.newOrder !in w.orders && e.newOrder != d.newOrder && e.newTx !in w.sap.rows && e.newTx != d.newTx
    ensures var undone := RejectByTransport(MarkUnusable(w, d).0, d.newOrder, reason).0;
            IsAskingDecision(undone, Unusable(e), d.faultId)
  {
    hide Reached, MarkUnusable, RejectByTransport;
    var after := MarkUnusable(w, d).0;
    var undone := RejectByTransport(after, d.newOrder, reason).0;
    RejectionUndoesDecision(w, d, reason);
    RejectionIsQuiet(after, d.newOrder, reason);
    UnusableAddsKeys(w, d);
  }

  lemma UnusableAddsKeys(w: World, d: Decision)
    ensures var after := MarkUnusable(w, d).0;
            after.orders.Keys <= w.orders.Keys + {d.newOrder} && after.sap.rows.Keys <= w.sap.rows.Keys + {d.newTx}
  {
    hide Execute, LiveOrders, ReplacementRequest, RO.NewOrder;
    if d.faultId in w.faults && w.faults[d.faultId].vehicleId in w.vehicles && d.adapter.Some? {
      var f := w.faults[d.faultId];
      ExecuteAddsOneRow(w.sap, d.newTx, ReplacementRequest(d, f, w.vehicles[f.vehicleId]), d.adapter.value, d.now);
    }
  }

  /** A concrete run in which SAP is asked twice for one fault. */
  lemma TwoRequestsForOneFault()
    ensures exists w0, steps, f :: IsStart(w0) && AskingDecisions(w0, steps, f) == 2 && Requests(Run(w0, steps), f) == 2
  {
    hide *;
    var w0, d, e := OneVehicle(), FirstDecision(), SecondDecision();
    var report, decide, reject, again := Report("v", "f", "noise"), Unusable(d), TransportRejects("o", ""), Unusable(e);
    ReportedFault();
    FirstDecisionIs();
    SecondDecisionIs();
    var w1 := RunOne(w0, [], report);
    assert [] + [report] == [report];
    var w2 := RunOne(w0, [report], decide);
    var w3 := RunOne(w0, [report] + [decide], reject);
    var w4 := RunOne(w0, [report] + [decide] + [reject], again);
    TakeIsService(w1, w2, d);
    ReportedWorld(w1);
    SecondRound(w1, d, "", e);
    CountOne(w0, [], report, "f");
    CountOne(w0, [report], decide, "f");
    CountOne(w0, [report] + [decide], reject, "f");
    CountOne(w0, [report] + [decide] + [reject], again, "f");
    AsksByDeciding(Run(w0, []), report, "f");
    AsksByDeciding(w1, decide, "f");
    AsksByDeciding(w2, reject, "f");
    NothingAsked(w0, "f");
    RequestsAreAskingDecisions(w0, [report] + [decide] + [reject] + [again], "f");
  }

  lemma SecondDecisionIs()
    ensures SecondDecision() == FirstDecision().(newOrder := SecondDecision().newOrder, newTx := SecondDecision().newTx)
    ensures SecondDecision().newOrder != FirstDecision().newOrder && SecondDecision().newTx != FirstDecision().newTx
  {
  }

  lemma ReportedWorld(w1: World)
    requires w1 == Run(OneVehicle(), [Report("v", "f", "noise")])
    ensures w1.orders == map[] && w1.sap.rows == map[]
  {
    FirstReport(OneVehicle(), w1);
  }

  /** Only a decision asks; a decision that may be taken asks if it is accepted and has what it needs. */
  lemma AsksByDeciding(w: World, s: Step, f: Id)
    ensures !s.Unusable? ==> !IsAskingDecision(w, s, f)
    ensures (&& s.Unusable? && s.decision.faultId == f && Possible(w, s) && !RefusesDecision(w, s.decision)
             && Asks(s.decision, w.vehicles[w.faults[f].vehicleId])) ==> IsAskingDecision(w, s, f)
  {
  }

  lemma NothingAsked(w0: World, f: Id)
    ensures AskingDecisions(w0, [], f) == 0
  {
  }

  lemma CountOne(w0: World, steps: seq<Step>, s: Step, f: Id)
    ensures AskingDecisions(w0, steps + [s], f)
         == AskingDecisions(w0, steps, f) + if IsAskingDecision(Run(w0, steps), s, f) then 1 else 0
  {
    assert (steps + [s])[..|steps + [s]| - 1] == steps;
  }
}
