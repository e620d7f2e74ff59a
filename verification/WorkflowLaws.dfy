/** What the fault workflow promises, in every run. */
module WorkflowLaws {
  import opened Common
  import opened Fleet
  import RO = RepairOrders
  import RL = RepairOrderLaws
  import opened SapTransactions
  import opened SapGatewaySpec
  import GL = SapGatewayLaws
  import GR = SapGatewayRuns
  import opened Workflow
  import opened WorkflowRuns
  import opened WorkflowRequests

  // ---------------------------------------------------------------- three notions of an open order

  /** The guard's set and the repository's query agree; the entity and the query disagree about
      ACCEPTED_BY_DRIVER only, the entity and the distribution service about NO_REPAIR_NEEDED only. */
  lemma WhereTheNotionsDiffer(s: RO.Status)
    ensures GUARD_TERMINAL == FINISHED
    ensures s in GUARD_OPEN <==> s !in FINISHED
    ensures (s in RO.TERMINAL <==> s in FINISHED) <==> s != RO.AcceptedByDriver
    ensures (s in RO.TERMINAL <==> s in SPENT) <==> s != RO.NoRepairNeeded
  {
  }

  /** On every order that operations can reach, the entity, the guard's set and the query agree. */
  lemma {:induction false} OpenOrderNotionsAgree(o: RO.Order, ops: seq<RO.Op>)
    requires RL.IsNew(o)
    ensures RL.Run(o, ops).IsActive() <==> RL.Run(o, ops).status !in FINISHED
    ensures RL.Run(o, ops).IsActive() <==> RL.Run(o, ops).status in GUARD_OPEN
  {
    RL.RunIsConsistent(o, ops);
    WhereTheNotionsDiffer(RL.Run(o, ops).status);
  }

  // ---------------------------------------------------------------- closing a fault

  /** Closing a fault never raises inside its loop: each order it changes takes an operation that is
      allowed, keeps a completion time it has, and leaves the statuses that are still to be decided. */
  lemma ReleaseIsAllowed(o: RO.Order, now: Time)
    ensures IsReleased(o) ==>
              exists op :: RO.Enabled(op, o) && RO.Apply(op, o) == Released(o, now) && (op.Cancel? || op.CompleteAfterHandover?)
    ensures !IsReleased(o) <==> Released(o, now) == o
    ensures o.completedAt.Some? ==> Released(o, now).completedAt == o.completedAt
    ensures !IsReleased(Released(o, now))
  {
    if o.status == RO.WaitingFinalApproval {
      var at := o.completedAt.GetOr(now);
      assert RO.Apply(RO.CompleteAfterHandover(at), o) == Released(o, now) && RO.Enabled(RO.CompleteAfterHandover(at), o);
    } else if IsReleased(o) {
      assert RO.Apply(RO.Cancel, o) == Released(o, now) && RO.Enabled(RO.Cancel, o);
    }
  }

  /** What a closed fault leaves: an order that awaited its final approval is completed, at the time it has
      or else now; a new or approved one is cancelled; all else in the world is as it was. */
  ghost predicate DecidesOrders(w: World, after: World, faultId: Id, now: Time)
    requires faultId in w.faults
  {
    && after.faults == w.faults[faultId := w.faults[faultId].(status := Closed)]
    && after.vehicles == w.vehicles && after.sap == w.sap && after.asked == w.asked
    && after.orders.Keys == w.orders.Keys
    && forall o :: o in w.orders ==>
         var before := w.orders[o];
         if before.faultId == faultId && before.status == RO.WaitingFinalApproval then
           after.orders[o] == before.(status := RO.Completed, completedAt := Some(before.completedAt.GetOr(now)))
         else if before.faultId == faultId && before.status in {RO.Created, RO.Approved} then
           after.orders[o] == before.(status := RO.Cancelled)
         else after.orders[o] == before
  }

  /** Closing a fault is refused, changing nothing, exactly when there is no such fault, it is closed, or it
      is with a technician; otherwise it decides the fault's orders. */
  lemma ClosingDecidesOrders(w: World, faultId: Id, now: Time)
    ensures var (after, r) := CloseFault(w, faultId, now);
            if faultId !in w.faults then after == w && r == Missing
            else if w.faults[faultId].status == Closed then after == w && r == FaultAlreadyClosed
            else if w.faults[faultId].status == WithTechnician then after == w && r == ForbiddenTransition
            else r == Done && DecidesOrders(w, after, faultId, now)
  {
  }

  lemma ReleaseKeepsTime(o: RO.Order, now: Time)
    requires RL.Consistent(o)
    ensures Released(o, now).completedAt == o.completedAt
  {
  }

  /** In a run closing a fault never needs the clock: an order it completes has its completion time. */
  lemma ClosingKeepsCompletionTimes(w: World, faultId: Id, now: Time, o: Id)
    requires Reached(w) && o in w.orders
    ensures var after := CloseFault(w, faultId, now).0;
            o in after.orders && after.orders[o].completedAt == w.orders[o].completedAt
  {
    hide Reached, Sound, Released, RL.Consistent;
    ReachedIsSound(w);
    SoundOrder(w, o);
    ReleaseKeepsTime(w.orders[o], now);
  }

  // ---------------------------------------------------------------- distribution decisions

  /** A note that is given and not empty replaces the old one. */
  function NoteAfter(given: Option<string>, before: Option<string>): Option<string> {
    match given
    case Some(text) => if text == "" then before else given
    case None => before
  }

  /** The closed fault with its note, its orders decided, and its vehicle ACTIVE unless DECOMMISSIONED. */
  ghost predicate ClosedAsUsable(w: World, after: World, faultId: Id, note: Option<string>, now: Time)
    requires faultId in w.faults && w.faults[faultId].vehicleId in w.vehicles
  {
    var f := w.faults[faultId];
    var v := w.vehicles[f.vehicleId];
    && after.faults == w.faults[faultId := f.(status := Closed, note := NoteAfter(note, f.note))]
    && after.vehicles == (if v.status == Decommissioned then w.vehicles
                          else w.vehicles[f.vehicleId := v.(status := Active)])
    && DecidesOrders(w, after.(faults := w.faults[faultId := f.(status := Closed)], vehicles := w.vehicles), faultId, now)
  }

  /** Marking usable either changes nothing, or closes the fault; the vehicle then is ACTIVE, and the
      caller gets an answer, exactly when it was not DECOMMISSIONED. */
  lemma UsableIsAllOrNothing(w: World, faultId: Id, note: Option<string>, now: Time)
    requires Reached(w)
    ensures var (after, r) := MarkUsable(w, faultId, note, now);
            if faultId !in w.faults || w.faults[faultId].status in {Closed, WithTechnician} then after == w && r != Done
            else
              var v := w.faults[faultId].vehicleId;
              && after.faults[faultId].status == Closed
              && v in w.vehicles && v in after.vehicles
              && (r == Done <==> w.vehicles[v].status != Decommissioned)
              && (after.vehicles[v].status == Active <==> r == Done)
              && ClosedAsUsable(w, after, faultId, note, now)
  {
    hide Reached, Sound, ReleaseOrders, DecidesOrders;
    ReachedIsSound(w);
    ClosingDecidesOrders(w, faultId, now);
    assert faultId in w.faults ==> (Closable(w.faults[faultId].status) <==> w.faults[faultId].status !in {Closed, WithTechnician});
    if faultId in w.faults && Closable(w.faults[faultId].status) {
      var f := w.faults[faultId];
      var closed, after := CloseFault(w, faultId, now).0, MarkUsable(w, faultId, note, now).0;
      SoundFault(w, faultId);
      assert after.faults == w.faults[faultId := f.(status := Closed, note := NoteAfter(note, f.note))];
      assert after.(faults := closed.faults, vehicles := w.vehicles) == closed;
      assert w.vehicles[f.vehicleId := w.vehicles[f.vehicleId]] == w.vehicles;
    }
  }

  /** Why an unusable decision is refused before anything is written. */
  predicate RefusesDecision(w: World, d: Decision) {
    d.faultId !in w.faults || w.faults[d.faultId].status != Open || w.faults[d.faultId].vehicleId !in w.vehicles
    || w.vehicles[w.faults[d.faultId].vehicleId].status in {Inactive, Decommissioned}
  }

  /** A new order: nothing is known of it but where it comes from. */
  function BlankOrder(id: Id, vehicleId: Id, faultId: Id, createdBy: Id, createdAt: Time): RO.Order {
    RO.Order(id, vehicleId, faultId, RO.Created, createdBy, createdAt, assignment := None, activities := [], parts := [],
             sapNumber := None, workshopType := None, workshopId := None, rejectionReason := None, approvalNote := None,
             decisionNote := None, completedAt := None)
  }

  /** All that an accepted unusable decision changes outside SAP. */
  ghost predicate OutOfServiceForFault(w: World, after: World, d: Decision)
    requires d.faultId in w.faults && w.faults[d.faultId].vehicleId in w.vehicles
  {
    var f := w.faults[d.faultId];
    && after.vehicles == w.vehicles[f.vehicleId := w.vehicles[f.vehicleId].(status := OutOfService)]
    && after.faults == w.faults[d.faultId := f.(status := AwaitingTransport, note := NoteAfter(d.note, f.note))]
    && after.orders == w.orders[d.newOrder := BlankOrder(d.newOrder, f.vehicleId, d.faultId, d.decidedBy, d.now)]
    && LiveOrders(after, d.faultId) == {d.newOrder}
  }

  /** Marking unusable either changes nothing, or ends with the vehicle OUT_OF_SERVICE, the fault
      AWAITING_TRANSPORT and exactly one live order, a new one; this holds even when it raises. */
  lemma UnusableIsAllOrNothing(w: World, d: Decision)
    requires Reached(w) && Possible(w, Unusable(d))
    ensures var (after, r) := MarkUnusable(w, d);
            if RefusesDecision(w, d) then
              && after == w
              && (r == NotAwaitingDecision <==> d.faultId in w.faults && w.faults[d.faultId].status != Open)
              && (r == Missing <==> d.faultId !in w.faults)
              && r in {Missing, NotAwaitingDecision, ForbiddenTransition}
            else OutOfServiceForFault(w, after, d) && (r == Done || r.GatewayRaised?)
  {
    hide Reached, Sound, Execute;
    ReachedIsSound(w);
    if d.faultId in w.faults {
      SoundFault(w, d.faultId);
    }
    if !RefusesDecision(w, d) {
      SoundStopped(w, d);
      var f := w.faults[d.faultId];
      var stopped := Stopped(w, d);
      assert MarkUnusable(w, d) == AskForReplacement(stopped, d, f, w.vehicles[f.vehicleId]);
      assert LiveOrders(stopped, d.faultId) == LiveOrders(w, d.faultId) + {d.newOrder};
    }
  }

  /** In any world, also one that no run leads to: an accepted decision adds its order exactly when every
      order the fault already has is over. */
  lemma QueuesUnlessBusy(w: World, d: Decision)
    requires Possible(w, Unusable(d)) && !RefusesDecision(w, d)
    ensures var after := MarkUnusable(w, d).0;
            if exists o :: o in w.orders && w.orders[o].faultId == d.faultId
                           && w.orders[o].status !in {RO.Completed, RO.Cancelled, RO.RejectedByTransport, RO.RejectedByDriver}
            then after.orders == w.orders
            else after.orders == w.orders[d.newOrder := BlankOrder(d.newOrder, w.faults[d.faultId].vehicleId, d.faultId,
                                                                   d.decidedBy, d.now)]
  {
    hide Execute, ReplacementRequest;
    if o :| o in w.orders && w.orders[o].faultId == d.faultId && !IsSpent(w.orders[o]) {
      assert o in LiveOrders(w, d.faultId);
    } else {
      assert LiveOrders(w, d.faultId) == {};
    }
  }

  /** A fault is reported for a vehicle that exists and has neither an open fault nor an open order. */
  lemma WhatAReportAdds(w: World, v: Id, newFault: Id, description: string)
    ensures var (after, r) := ReportFault(w, v, newFault, description);
            var busy := (exists f :: f in w.faults && w.faults[f].vehicleId == v && w.faults[f].status != Closed)
                        || (exists o :: o in w.orders && w.orders[o].vehicleId == v && w.orders[o].status in GUARD_OPEN);
            if v in w.vehicles && !busy then
              r == Done && after == w.(faults := w.faults[newFault := FaultData(newFault, v, description, Open, None, None)])
            else after == w && r == if v in w.vehicles then OpenFlow else Missing
  {
  }

  /** The adapter's answer, if it is called, for a key in the state the table has for it. */
  predicate Answerable(g: Gateway, key: string, adapter: Adapter, payload: Payload) {
    match GR.EntryFor(g, key)
    case None => !adapter(key, 0, payload).Crashed?
    case Some(e) =>
      e.row.status == Success
      || (e.row.status == Failed && e.row.retryCount < MAX_RETRY_ATTEMPTS && !adapter(key, |e.calls|, payload).Crashed?)
  }

  lemma ExecuteIsCaught(g: Gateway, newId: TxId, q: SapGatewaySpec.Request, adapter: Adapter, now: Time)
    requires GL.AtRest(g) && GR.DefaultBudget(g) && newId !in g.rows
    ensures var r := Execute(g, newId, q, adapter, now).1;
            r.Returned? || r.IntegrationError? <==> Answerable(g, q.key, adapter, q.payload)
  {
    hide Execute, GL.EntryAtRest;
    if q.key in g.byKey {
      GR.KnownKey(g, q.key);
      GR.ExecuteOnKnownKey(g, newId, q, adapter, now);
    } else {
      GL.ExecuteNewKey(g, newId, q, adapter, now);
    }
  }

  /** Exactly when an accepted unusable decision raises: the request for the fault's replacement key is
      blocked by an earlier one that is still in progress or has used up its attempts, or the adapter
      fails in a way that is not an integration error. */
  lemma WhenUnusableRaises(w: World, d: Decision)
    requires Reached(w) && Possible(w, Unusable(d)) && !RefusesDecision(w, d)
    ensures var f := w.faults[d.faultId];
            var v := w.vehicles[f.vehicleId];
            MarkUnusable(w, d).1 == Done
            <==> (Asks(d, v) ==> Answerable(w.sap, ReplacementKey(d.faultId), d.adapter.value, ReplacementRequest(d, f, v).payload))
  {
    hide Reached, Execute, GL.AtRest, Answerable, LiveOrders, ReplacementKey;
    ReachedIsCounted(w);
    var f := w.faults[d.faultId];
    var v := w.vehicles[f.vehicleId];
    if Asks(d, v) {
      ExecuteIsCaught(w.sap, d.newTx, ReplacementRequest(d, f, v), d.adapter.value, d.now);
    }
  }

  // ---------------------------------------------------------------- SAP requests per fault

  /** In every run SAP is asked at most once per round of a fault, and a new round starts only when
      transport rejects the order; so a fault that is OPEN and was never rejected has no SAP row. */
  lemma AskedOncePerRound(w: World, f: Id)
    requires Reached(w) && f in w.faults
    ensures && Requests(w, f) <= |RejectedOrders(w, f)| + (if w.faults[f].status == Open then 0 else 1)
            && (w.faults[f].status == Open && RejectedOrders(w, f) == {} ==> ReplacementKey(f) !in w.sap.byKey)
  {
    hide Reached, SapSettled;
    ReachedIsCounted(w);
    if ReplacementKey(f) in w.sap.byKey {
      assert f in w.asked;
    }
  }

  lemma RunOne(w0: World, steps: seq<Step>, s: Step) returns (after: World)
    requires IsStart(w0)
    ensures after == Take(Run(w0, steps), s) == Run(w0, steps + [s]) && Reached(after)
  {
    after := Take(Run(w0, steps), s);
    assert (steps + [s])[..|steps + [s]| - 1] == steps;
  }

  // ---------------------------------------------------------------- leaving the center

  lemma StepKeepsVehicles(w: World, s: Step)
    ensures Take(w, s).vehicles.Keys == w.vehicles.Keys
  {
    hide RO.Apply, Execute, ReplacementRequest, LiveOrders, GR.Step, ReleaseOrders, HasOpenOrder, HasOpenFault,
         RO.Enabled, RO.NewOrder;
  }

  ghost predicate KeepsFault(w: World, after: World, f: Id)
    requires f in w.faults
  {
    && f in after.faults && after.faults[f].vehicleId == w.faults[f].vehicleId
    && (w.faults[f].status == Closed ==> after.faults[f].status == Closed)
  }

  lemma DecisionKeepsFault(w: World, s: Step, f: Id)
    requires f in w.faults && (s.Usable? || s.Unusable? || s.TransportRejects?)
    ensures KeepsFault(w, Take(w, s), f)
  {
    hide RO.Apply, Execute, ReplacementRequest, LiveOrders, GR.Step, ReleaseOrders, HasOpenOrder, HasOpenFault,
         RO.Enabled, RO.NewOrder;
  }

  lemma OtherStepKeepsFault(w: World, s: Step, f: Id)
    requires f in w.faults && !s.Usable? && !s.Unusable? && !s.TransportRejects?
    ensures KeepsFault(w, Take(w, s), f)
  {
    hide RO.Apply, Execute, ReplacementRequest, LiveOrders, GR.Step, ReleaseOrders, HasOpenOrder, HasOpenFault,
         RO.Enabled, RO.NewOrder, MarkUsable, MarkUnusable, RejectByTransport;
  }

  lemma StepKeepsFault(w: World, s: Step, f: Id)
    requires f in w.faults
    ensures KeepsFault(w, Take(w, s), f)
  {
    hide Take, KeepsFault;
    if s.Usable? || s.Unusable? || s.TransportRejects? {
      DecisionKeepsFault(w, s, f);
    } else {
      OtherStepKeepsFault(w, s, f);
    }
  }

  lemma StepKeepsVehicleHere(w: World, s: Step, f: Id)
    requires f in w.faults && w.faults[f].vehicleId in w.vehicles && w.faults[f].status != Closed
    requires w.vehicles[w.faults[f].vehicleId].status != ExitedCenter
    ensures var after, v := Take(w, s), w.faults[f].vehicleId;
            v in after.vehicles && after.vehicles[v].status != ExitedCenter
  {
    hide RO.Apply, Execute, ReplacementRequest, LiveOrders, GR.Step, ReleaseOrders, HasOpenOrder, RO.Enabled, RO.NewOrder;
    if s.Exit? {
      assert HasOpenFault(w, w.faults[f].vehicleId);
    }
  }

  /** From an accepted unusable decision until the fault is closed, the vehicle never leaves. */
  lemma {:induction false} ConfirmedVehicleStays(w: World, d: Decision, more: seq<Step>)
    requires Reached(w) && Possible(w, Unusable(d)) && !RefusesDecision(w, d)
    ensures var v := w.faults[d.faultId].vehicleId;
            var later := Run(MarkUnusable(w, d).0, more);
            && d.faultId in later.faults && v in later.vehicles && later.faults[d.faultId].vehicleId == v
            && (later.faults[d.faultId].status != Closed ==> later.vehicles[v].status != ExitedCenter)
    decreases |more|
  {
    hide Reached, OutOfServiceForFault, RO.Apply;
    if more == [] {
      UnusableIsAllOrNothing(w, d);
      OutOfServiceIsHere(w, MarkUnusable(w, d).0, d);
    } else {
      ConfirmedVehicleStays(w, d, more[..|more| - 1]);
      var before := Run(MarkUnusable(w, d).0, more[..|more| - 1]);
      ClosedOrHere(before, more[|more| - 1], d.faultId);
    }
  }

  lemma OutOfServiceIsHere(w: World, after: World, d: Decision)
    requires d.faultId in w.faults && w.faults[d.faultId].vehicleId in w.vehicles && OutOfServiceForFault(w, after, d)
    ensures var v := w.faults[d.faultId].vehicleId;
            && d.faultId in after.faults && after.faults[d.faultId].vehicleId == v && v in after.vehicles
            && after.vehicles[v].status == OutOfService
  {
  }

  lemma ClosedOrHere(w: World, s: Step, f: Id)
    requires f in w.faults && w.faults[f].vehicleId in w.vehicles
    requires w.faults[f].status != Closed ==> w.vehicles[w.faults[f].vehicleId].status != ExitedCenter
    ensures var after := Take(w, s);
            && f in after.faults && after.faults[f].vehicleId == w.faults[f].vehicleId
            && after.faults[f].vehicleId in after.vehicles
            && (after.faults[f].status != Closed ==> after.vehicles[after.faults[f].vehicleId].status != ExitedCenter)
  {
    hide Take;
    StepKeepsVehicles(w, s);
    StepKeepsFault(w, s, f);
    if w.faults[f].status != Closed {
      StepKeepsVehicleHere(w, s, f);
    }
  }

  /** A vehicle leaves exactly when an assigned driver brings a submitted checklist of this vehicle, the
      vehicle is ACTIVE, and no fault or order of it is open; nothing but its status changes. */
  lemma WhenAVehicleLeaves(w: World, v: Id, driver: Option<string>, checklist: Option<Checklist>)
    ensures var (after, r) := ExitCenter(w, v, driver, checklist);
            && (r == Done <==> after != w)
            && (r == Done <==>
                  && v in w.vehicles && w.vehicles[v].status == Active
                  && driver.Some? && (driver == w.vehicles[v].driver1 || driver == w.vehicles[v].driver2)
                  && checklist == Some(Checklist(v, true))
                  && (forall f :: f in w.faults && w.faults[f].vehicleId == v ==> w.faults[f].status == Closed)
                  && (forall o :: o in w.orders && w.orders[o].vehicleId == v ==> w.orders[o].status in FINISHED))
            && (r == Done ==> after == SetVehicle(w, v, ExitedCenter))
  {
    if v in w.vehicles && w.vehicles[v].status == Active {
      assert SetVehicle(w, v, ExitedCenter).vehicles[v].status != w.vehicles[v].status;
    }
  }

  // ---------------------------------------------------------------- a rejection undoes a decision

  /** In every run, what transport can reject is a new order; the rejection ends it with the reason given,
      sends a waiting fault back to OPEN, and makes the vehicle ACTIVE unless it was DECOMMISSIONED. */
  lemma RejectionSendsBack(w: World, orderId: Id, reason: string)
    requires Reached(w)
    ensures var (after, r) := RejectByTransport(w, orderId, reason);
            if orderId !in w.orders then after == w && r == Missing
            else if w.orders[orderId].status != RO.Created then after == w && r == ForbiddenTransition
            else
              var o := w.orders[orderId];
              && o.faultId in w.faults && o.vehicleId in w.vehicles
              && after.orders == w.orders[orderId := o.(status := RO.RejectedByTransport, rejectionReason := Some(reason))]
              && after.faults == (if w.faults[o.faultId].status == AwaitingTransport
                                  then w.faults[o.faultId := w.faults[o.faultId].(status := Open)] else w.faults)
              && (r == Done <==> w.vehicles[o.vehicleId].status != Decommissioned)
              && after.vehicles == (if r == Done then w.vehicles[o.vehicleId := w.vehicles[o.vehicleId].(status := Active)]
                                    else w.vehicles)
              && after.sap == w.sap && after.asked == w.asked
  {
    hide Reached, Sound;
    ReachedIsSound(w);
    if orderId in w.orders {
      SoundOrder(w, orderId);
      SoundFault(w, w.orders[orderId].faultId);
      var v := w.orders[orderId].vehicleId;
      assert w.vehicles[v := w.vehicles[v]] == w.vehicles;
    }
  }

  // ---------------------------------------------------------------- one open fault per vehicle

  ghost predicate OneOpenFault(w: World) {
    forall f, g {:trigger w.faults[f], w.faults[g]} ::
      (&& f in w.faults && g in w.faults && w.faults[f].status != Closed && w.faults[g].status != Closed
       && w.faults[f].vehicleId == w.faults[g].vehicleId) ==> f == g
  }

  lemma OnlyReportsAdd(w: World, s: Step, f: Id)
    requires f in Take(w, s).faults && f !in w.faults
    ensures s.Report? && f == s.newFault && Take(w, s).faults[f].vehicleId == s.vehicleId && !HasOpenFault(w, s.vehicleId)
  {
    hide RO.Apply, Execute, ReplacementRequest, LiveOrders, GR.Step, ReleaseOrders, HasOpenOrder, HasOpenFault,
         RO.Enabled, RO.NewOrder;
  }

  lemma StepKeepsOneOpenFault(w: World, s: Step)
    requires OneOpenFault(w)
    ensures OneOpenFault(Take(w, s))
  {
    hide Take, OneOpenFault;
    var after := Take(w, s);
    forall f | f in w.faults ensures KeepsFault(w, after, f) {
      StepKeepsFault(w, s, f);
    }
    forall f | f in after.faults && f !in w.faults
      ensures s.Report? && f == s.newFault && after.faults[f].vehicleId == s.vehicleId && !HasOpenFault(w, s.vehicleId) {
      OnlyReportsAdd(w, s, f);
    }
    OpenFaultsAreOld(w, after);
  }

  lemma OpenFaultsAreOld(w: World, after: World)
    requires OneOpenFault(w) && forall f :: f in w.faults ==> KeepsFault(w, after, f)
    requires forall f, g :: f in after.faults && f !in w.faults && g in after.faults && g !in w.faults ==> f == g
    requires forall f :: f in after.faults && f !in w.faults ==> !HasOpenFault(w, after.faults[f].vehicleId)
    ensures OneOpenFault(after)
  {
  }

  lemma {:induction false} RunKeepsOneOpenFault(w0: World, steps: seq<Step>)
    requires IsStart(w0)
    ensures OneOpenFault(Run(w0, steps))
  {
    hide Take;
    if steps != [] {
      var last := |steps| - 1;
      RunKeepsOneOpenFault(w0, steps[..last]);
      StepKeepsOneOpenFault(Run(w0, steps[..last]), steps[last]);
    }
  }

  /** In every run a vehicle has at most one fault that is not closed. */
  lemma OneOpenFaultPerVehicle(w: World, f: Id, g: Id)
    requires Reached(w) && f in w.faults && g in w.faults && w.faults[f].vehicleId == w.faults[g].vehicleId
    requires w.faults[f].status != Closed && w.faults[g].status != Closed
    ensures f == g
  {
    hide Take, IsStart, OneOpenFault;
    var w0, steps :| IsStart(w0) && w == Run(w0, steps);
    RunKeepsOneOpenFault(w0, steps);
    assert OneOpenFault(w);
    OpenFaultIsUnique(w, f, g);
  }

  lemma OpenFaultIsUnique(w: World, f: Id, g: Id)
    requires OneOpenFault(w) && f in w.faults && g in w.faults && w.faults[f].vehicleId == w.faults[g].vehicleId
    requires w.faults[f].status != Closed && w.faults[g].status != Closed
    ensures f == g
  {
  }

  /** Rejecting the order of a decision brings the fault back to OPEN without a live order and the
      vehicle back to ACTIVE. */
  lemma RejectionUndoesDecision(w: World, d: Decision, reason: string)
    requires Reached(w) && Possible(w, Unusable(d)) && !RefusesDecision(w, d)
    ensures var (undone, r) := RejectByTransport(MarkUnusable(w, d).0, d.newOrder, reason);
            && r == Done
            && undone.faults == w.faults[d.faultId := Noted(w.faults[d.faultId], d.note)]
            && undone.vehicles == w.vehicles[w.faults[d.faultId].vehicleId := w.vehicles[w.faults[d.faultId].vehicleId].(status := Active)]
            && LiveOrders(undone, d.faultId) == {}
  {
    hide Reached, MarkUnusable;
    UnusableIsAllOrNothing(w, d);
    RejectionOfNewOrder(w, MarkUnusable(w, d).0, d, reason);
  }

  lemma RejectionOfNewOrder(w: World, after: World, d: Decision, reason: string)
    requires !RefusesDecision(w, d) && OutOfServiceForFault(w, after, d)
    ensures var (undone, r) := RejectByTransport(after, d.newOrder, reason);
            && r == Done
            && undone.faults == w.faults[d.faultId := Noted(w.faults[d.faultId], d.note)]
            && undone.vehicles == w.vehicles[w.faults[d.faultId].vehicleId := w.vehicles[w.faults[d.faultId].vehicleId].(status := Active)]
            && LiveOrders(undone, d.faultId) == {}
            && undone.sap == after.sap
  {
    hide LiveOrders;
    var undone := RejectByTransport(after, d.newOrder, reason).0;
    var o := after.orders[d.newOrder].(status := RO.RejectedByTransport, rejectionReason := Some(reason));
    assert undone.faults == w.faults[d.faultId := Noted(w.faults[d.faultId], d.note)];
    assert undone.orders == after.orders[d.newOrder := o];
    LiveAfterSpending(after, d.newOrder, o);
    LiveIsAboutOrders(undone, after.(orders := after.orders[d.newOrder := o]), d.faultId);
  }

  lemma LiveIsAboutOrders(a: World, b: World, f: Id)
    requires a.orders == b.orders
    ensures LiveOrders(a, f) == LiveOrders(b, f)
  {
  }

  /** However many rounds, sweeps and retries a run contains, SAP is called at most four times for the
      replacement of one fault, and grants at most one. */
  lemma OneReplacementPerFault(w: World, f: Id)
    requires Reached(w) && GR.EntryFor(w.sap, ReplacementKey(f)).Some?
    ensures var calls := GR.EntryFor(w.sap, ReplacementKey(f)).value.calls;
            && 1 <= |calls| <= MAX_RETRY_ATTEMPTS + 1
            && (forall i :: 0 <= i < |calls| - 1 ==> !calls[i].reply.Reply?)
            && f in w.faults && f in w.asked
  {
    hide Reached, IsPendingListing, GL.IsPath;
    ReachedIsCounted(w);
    var e := GR.EntryFor(w.sap, ReplacementKey(f)).value;
    assert GL.EntryAtRest(e);
    assert forall i :: 0 <= i < |e.calls| - 1 ==> e.calls[i] == e.calls[..|e.calls| - 1][i];
  }

  /** What the rejection does not undo is the SAP row: the OPEN fault keeps it, and the next decision
      for the fault finds it. */
  lemma RejectionKeepsTheRow(w: World, d: Decision, reason: string)
    requires Reached(w) && Possible(w, Unusable(d)) && !RefusesDecision(w, d)
    requires Asks(d, w.vehicles[w.faults[d.faultId].vehicleId])
    ensures var undone := RejectByTransport(MarkUnusable(w, d).0, d.newOrder, reason).0;
            && d.faultId in undone.faults && undone.faults[d.faultId].status == Open
            && ReplacementKey(d.faultId) in undone.sap.byKey
  {
    hide Reached, MarkUnusable, GL.EntryAtRest;
    UnusableIsAllOrNothing(w, d);
    ReachedIsCounted(w);
    RejectionOfNewOrder(w, MarkUnusable(w, d).0, d, reason);
    DecisionAddsKey(w, d);
  }

  lemma DecisionAddsKey(w: World, d: Decision)
    requires SapSettled(w) && d.newTx !in w.sap.rows && !RefusesDecision(w, d)
    requires Asks(d, w.vehicles[w.faults[d.faultId].vehicleId])
    ensures ReplacementKey(d.faultId) in MarkUnusable(w, d).0.sap.byKey
  {
    hide Execute, GL.AtRest, LiveOrders, ReplacementKey;
    var f := w.faults[d.faultId];
    ExecuteAddsItsKey(w.sap, d.newTx, ReplacementRequest(d, f, w.vehicles[f.vehicleId]), d.adapter.value, d.now);
  }

  function OneVehicle(): World {
    World(map[], map["v" := VehicleData("v", "V-1", Active, Some("D-1"), None)], map[], EMPTY_GATEWAY, [])
  }

  function FirstDecision(): Decision {
    Decision("f", None, "u", "r", "o", "t", Some((k, n, p) => Reply(map[], "A-1")), "", 0)
  }

  lemma ReportedFault()
    ensures var steps := [Report("v", "f", "noise")];
            var w := Run(OneVehicle(), steps);
            && IsStart(OneVehicle()) && Possible(w, Unusable(FirstDecision())) && !RefusesDecision(w, FirstDecision())
            && Asks(FirstDecision(), w.vehicles[w.faults["f"].vehicleId])
  {
    hide Take;
    var w := RunOne(OneVehicle(), [], Report("v", "f", "noise"));
    assert [] + [Report("v", "f", "noise")] == [Report("v", "f", "noise")];
    FirstReport(OneVehicle(), w);
  }

  /** A concrete run: a fault is reported, marked unusable and rejected by transport; it is OPEN again
      and its SAP row is there. */
  lemma ReopenedFaultHasRow()
    ensures exists w: World, f :: Reached(w) && f in w.faults && w.faults[f].status == Open && ReplacementKey(f) in w.sap.byKey
  {
    hide *;
    var steps, d := [Report("v", "f", "noise")], FirstDecision();
    ReportedFault();
    FirstDecisionIs();
    var w1 := RunOne(OneVehicle(), [], Report("v", "f", "noise"));
    assert [] + [Report("v", "f", "noise")] == steps;
    var w2 := RunOne(OneVehicle(), steps, Unusable(d));
    var w3 := RunOne(OneVehicle(), steps + [Unusable(d)], TransportRejects("o", ""));
    TakeIsService(w1, w2, d);
    RejectionKeepsTheRow(w1, d, "");
  }

  lemma FirstDecisionIs()
    ensures FirstDecision().faultId == "f" && FirstDecision().newOrder == "o"
  {
  }

  lemma FirstReport(w0: World, w1: World)
    requires w0.faults == map[] && w0.orders == map[] && w0.vehicles.Keys == {"v"}
    requires w1 == Take(w0, Report("v", "f", "noise"))
    ensures w1 == w0.(faults := map["f" := FaultData("f", "v", "noise", Open, None, None)])
  {
  }

  lemma TakeIsService(w1: World, w2: World, d: Decision)
    requires Possible(w1, Unusable(d)) && w2 == Take(w1, Unusable(d))
    ensures w2 == MarkUnusable(w1, d).0
    ensures Take(w2, TransportRejects(d.newOrder, "")) == RejectByTransport(w2, d.newOrder, "").0
  {
  }
}
