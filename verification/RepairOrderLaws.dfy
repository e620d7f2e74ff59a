/** What every run of repair order operations keeps, from creation on. */
module RepairOrderLaws {
  import opened Common
  import opened RepairOrders

  function Run(o: Order, ops: seq<Op>): Order {
    if ops == [] then o else Apply(ops[|ops| - 1], Run(o, ops[..|ops| - 1]))
  }

  predicate IsNew(o: Order) {
    o == NewOrder(o.id, o.vehicleId, o.faultId, o.createdBy, o.createdAt)
  }

  const EXTERNAL_ONLY: set<Status> :=
    {WaitingReferralApproval, WaitingDelivery, ExternalInProgress, WaitingPickup, WaitingAdminReview}
  const INTERNAL_ONLY: set<Status> := {WorkshopAssigned, WaitingWorkshopConfirmation, NoRepairNeeded}
  const BEFORE_WORKSHOP: set<Status> := {Created, Approved, RejectedByTransport}
  const NEVER_EXTERNAL: set<Status> := {Assigned, InProgress, WaitingParts}
  const WORK_DONE: set<Status> := {WaitingDriverConfirmation, WaitingFinalApproval, RejectedByDriver, Completed}

  /** Status and workshop type, status and completion time, and status and technician agree. */
  predicate Consistent(o: Order) {
    && (o.status in EXTERNAL_ONLY ==> o.workshopType == Some(External))
    && (o.status in INTERNAL_ONLY ==> o.workshopType == Some(Internal))
    && (o.status in BEFORE_WORKSHOP ==> o.workshopType == None)
    && (o.status in NEVER_EXTERNAL ==> o.workshopType != Some(External))
    && (o.status in WORK_DONE ==> o.completedAt.Some?)
    && (o.status == Assigned ==> o.assignment.Some?)
    && o.status != AcceptedByDriver
  }

  // The operations, in four groups: those on the lists and the SAP number, those of an external repair,
  // those of work in the center, and the decisions about the order.

  predicate IsListOp(op: Op) {
    op.AddActivity? || op.UpdateActivity? || op.DeleteActivity? || op.AddPart? || op.UpdatePart? || op.DeletePart?
    || op.LinkSapOrder?
  }

  predicate IsExternalOp(op: Op) {
    op.AssignExternalWorkshop? || op.ConfirmExternalDelivery? || op.WaitForExternalPickup? || op.ConfirmExternalPickup?
    || op.CloseExternalRepair?
  }

  predicate IsWorkOp(op: Op) {
    op.AssignTechnician? || op.AssignWorkshop? || op.AcceptInternalWorkshop? || op.MarkRepairable? || op.MarkNoRepairNeeded?
    || op.StartWork? || op.WaitForParts? || op.ResumeAfterParts?
  }

  lemma ListOpsKeepTheRest(op: Op, o: Order)
    requires IsListOp(op)
    ensures Apply(op, o).(activities := o.activities, parts := o.parts, sapNumber := o.sapNumber) == o
  {
    hide WithoutActivity, WithoutPart, AmendActivity, AmendPart, HasActivity, HasPart;
  }

  lemma ExternalKeepsConsistency(op: Op, o: Order)
    requires IsExternalOp(op) && Consistent(o)
    ensures Consistent(Apply(op, o))
    ensures o.workshopType.Some? ==> Apply(op, o).workshopType == o.workshopType
  {
  }

  lemma WorkKeepsConsistency(op: Op, o: Order)
    requires IsWorkOp(op) && Consistent(o)
    ensures Consistent(Apply(op, o))
    ensures o.workshopType.Some? ==> Apply(op, o).workshopType == o.workshopType
  {
  }

  lemma DecisionKeepsConsistency(op: Op, o: Order)
    requires !IsExternalOp(op) && !IsListOp(op) && !IsWorkOp(op) && Consistent(o)
    ensures Consistent(Apply(op, o))
    ensures o.workshopType.Some? ==> Apply(op, o).workshopType == o.workshopType
  {
  }

  lemma OperationKeepsConsistency(op: Op, o: Order)
    requires Consistent(o)
    ensures Consistent(Apply(op, o))
    ensures o.workshopType.Some? ==> Apply(op, o).workshopType == o.workshopType
  {
    hide Apply;
    if IsListOp(op) {
      ListOpsKeepTheRest(op, o);
    } else if IsExternalOp(op) {
      ExternalKeepsConsistency(op, o);
    } else if IsWorkOp(op) {
      WorkKeepsConsistency(op, o);
    } else {
      DecisionKeepsConsistency(op, o);
    }
  }

  lemma OperationKeepsIdentity(op: Op, o: Order)
    ensures var r := Apply(op, o);
            && r.id == o.id && r.vehicleId == o.vehicleId && r.faultId == o.faultId
            && r.createdBy == o.createdBy && r.createdAt == o.createdAt
  {
    hide WithoutActivity, WithoutPart, AmendActivity, AmendPart;
  }

  lemma {:induction false} RunIsConsistent(o: Order, ops: seq<Op>)
    requires IsNew(o)
    ensures Consistent(Run(o, ops))
    ensures var r := Run(o, ops);
            && r.id == o.id && r.vehicleId == o.vehicleId && r.faultId == o.faultId
            && r.createdBy == o.createdBy && r.createdAt == o.createdAt
  {
    if ops != [] {
      hide Apply, Consistent;
      RunIsConsistent(o, ops[..|ops| - 1]);
      OperationKeepsConsistency(ops[|ops| - 1], Run(o, ops[..|ops| - 1]));
      OperationKeepsIdentity(ops[|ops| - 1], Run(o, ops[..|ops| - 1]));
    }
  }

  /** Once an order has a workshop type, no later operation changes it. */
  lemma {:induction false} WorkshopTypeIsWrittenOnce(o: Order, ops: seq<Op>, more: seq<Op>)
    requires IsNew(o) && Run(o, ops).workshopType.Some?
    ensures Run(o, ops + more).workshopType == Run(o, ops).workshopType
  {
    if more == [] {
      assert ops + more == ops;
    } else {
      var last := |more| - 1;
      assert (ops + more)[..|ops + more| - 1] == ops + more[..last];
      WorkshopTypeIsWrittenOnce(o, ops, more[..last]);
      RunIsConsistent(o, ops + more[..last]);
      OperationKeepsConsistency(more[last], Run(o, ops + more[..last]));
    }
  }

  /** The statuses an operation enters, in order; confirming an external pickup may enter two. */
  function Entered(op: Op, o: Order): seq<Status> {
    if !Enabled(op, o) || IsListOp(op) then []
    else if op.ConfirmExternalPickup? && o.status == ExternalInProgress then [WaitingPickup, WaitingAdminReview]
    else [Effect(op, o).status]
  }

  /** The order ends in the last status that the operation enters, and each one follows from the table. */
  predicate MovesAlong(op: Op, o: Order) {
    var e := Entered(op, o);
    && Apply(op, o).status == (if e == [] then o.status else e[|e| - 1])
    && (e != [] && !op.RejectByTransport? ==> e[0] in Allowed(o.status))
    && (|e| == 2 ==> e[1] in Allowed(e[0]))
  }

  lemma ListOpsMoveAlong(op: Op, o: Order)
    requires IsListOp(op)
    ensures MovesAlong(op, o)
  {
    hide Apply;
    ListOpsKeepTheRest(op, o);
  }

  lemma ExternalMovesAlong(op: Op, o: Order)
    requires IsExternalOp(op)
    ensures MovesAlong(op, o)
  {
  }

  lemma InternalMovesAlong(op: Op, o: Order)
    requires !IsExternalOp(op) && !IsListOp(op)
    ensures MovesAlong(op, o)
  {
  }

  /** Operations move along the transition table; only the rejection by transport is not in it. */
  lemma OperationsFollowTheTable(op: Op, o: Order)
    ensures MovesAlong(op, o)
    ensures op.RejectByTransport? && Enabled(op, o) ==> Effect(op, o).status !in Allowed(o.status)
  {
    hide MovesAlong;
    if IsListOp(op) {
      ListOpsMoveAlong(op, o);
    } else if IsExternalOp(op) {
      ExternalMovesAlong(op, o);
    } else {
      InternalMovesAlong(op, o);
    }
  }

  /** The status changes an operation makes; assigning the delivery again keeps the status. */
  function Changes(op: Op, o: Order): nat {
    if op.AssignExternalWorkshop? && o.status == WaitingDelivery then 0 else |Entered(op, o)|
  }

  function ChangesIn(o: Order, ops: seq<Op>): nat {
    if ops == [] then 0
    else ChangesIn(o, ops[..|ops| - 1]) + Changes(ops[|ops| - 1], Run(o, ops[..|ops| - 1]))
  }

  function PartWaits(o: Order, ops: seq<Op>): nat {
    if ops == [] then 0 else
    var before := Run(o, ops[..|ops| - 1]);
    PartWaits(o, ops[..|ops| - 1]) + if ops[|ops| - 1].WaitForParts? && Enabled(WaitForParts, before) then 1 else 0
  }

  /** How many status changes can still follow, apart from waits for parts. */
  function ChangesLeft(s: Status): nat {
    match s
    case Created => 7
    case Approved => 6
    case WorkshopAssigned => 5
    case WaitingReferralApproval => 3
    case WaitingDelivery => 4
    case ExternalInProgress => 3
    case WaitingPickup => 2
    case WaitingAdminReview => 1
    case WaitingWorkshopConfirmation => 4
    case Assigned => 4
    case WaitingParts => 4
    case InProgress => 3
    case WaitingDriverConfirmation => 2
    case WaitingFinalApproval => 1
    case AcceptedByDriver => 1
    case _ => 0
  }

  lemma OneOperationCosts(op: Op, o: Order)
    ensures Changes(op, o) + ChangesLeft(Apply(op, o).status)
         <= ChangesLeft(o.status) + if op.WaitForParts? && Enabled(op, o) then 2 else 0
  {
    hide WithoutActivity, WithoutPart, AmendActivity, AmendPart, HasActivity, HasPart;
  }

  lemma {:induction false} ChangesAreCounted(o: Order, ops: seq<Op>)
    requires IsNew(o)
    ensures ChangesIn(o, ops) + ChangesLeft(Run(o, ops).status) <= 7 + 2 * PartWaits(o, ops)
  {
    hide Changes, Apply, Enabled;
    if ops != [] {
      ChangesAreCounted(o, ops[..|ops| - 1]);
      OneOperationCosts(ops[|ops| - 1], Run(o, ops[..|ops| - 1]));
    }
  }

  /** A run with k waits for parts changes the status at most 7 + 2k times ... */
  lemma RunsAreBounded(o: Order, ops: seq<Op>)
    requires IsNew(o)
    ensures ChangesIn(o, ops) <= 7 + 2 * PartWaits(o, ops)
  {
    ChangesAreCounted(o, ops);
  }

  /** ... and for every k some run does so exactly that often. */
  lemma BoundIsReached(o: Order, k: nat)
    requires IsNew(o)
    ensures exists ops :: PartWaits(o, ops) == k && ChangesIn(o, ops) == 7 + 2 * k
  {
    hide Run, ChangesIn, PartWaits, Consistent, WithoutActivity, WithoutPart, AmendActivity, AmendPart, HasActivity, HasPart;
    var ops := WorkWithWaits(o, k);
    ops := Then(o, ops, CompleteWaitingDriver(0));
    ops := Then(o, ops, ConfirmHandover(true));
    ops := Then(o, ops, CompleteAfterHandover(0));
  }

  lemma {:induction false} WorkWithWaits(o: Order, k: nat) returns (ops: seq<Op>)
    requires IsNew(o)
    ensures Run(o, ops).status == InProgress && PartWaits(o, ops) == k && ChangesIn(o, ops) == 4 + 2 * k
  {
    hide Run, ChangesIn, PartWaits, Consistent, WithoutActivity, WithoutPart, AmendActivity, AmendPart, HasActivity, HasPart;
    if k == 0 {
      ops := WorkStarts(o);
    } else {
      ops := WorkWithWaits(o, k - 1);
      ops := Then(o, ops, WaitForParts);
      ops := Then(o, ops, ResumeAfterParts);
    }
  }

  lemma WorkStarts(o: Order) returns (ops: seq<Op>)
    requires IsNew(o)
    ensures Run(o, ops).status == InProgress && PartWaits(o, ops) == 0 && ChangesIn(o, ops) == 4
  {
    hide Run, ChangesIn, PartWaits, Consistent, WithoutActivity, WithoutPart, AmendActivity, AmendPart, HasActivity, HasPart;
    NoOperations(o);
    ops := Then(o, [], Approve(None));
    ops := Then(o, ops, AssignWorkshop(Internal, None));
    ops := Then(o, ops, AcceptInternalWorkshop);
    ops := Then(o, ops, StartWork);
  }

  lemma NoOperations(o: Order)
    ensures Run(o, []) == o && ChangesIn(o, []) == 0 && PartWaits(o, []) == 0
  {
  }

  lemma Then(o: Order, ops: seq<Op>, op: Op) returns (longer: seq<Op>)
    ensures longer == ops + [op]
    ensures Run(o, longer) == Apply(op, Run(o, ops))
    ensures ChangesIn(o, longer) == ChangesIn(o, ops) + Changes(op, Run(o, ops))
    ensures PartWaits(o, longer)
         == PartWaits(o, ops) + if op.WaitForParts? && Enabled(WaitForParts, Run(o, ops)) then 1 else 0
  {
    longer := ops + [op];
    assert longer[..|longer| - 1] == ops;
  }

  /** Every order that can still move can be ended by one operation; the others never move again. */
  lemma EveryRunCanEnd(o: Order, ops: seq<Op>, op: Op)
    requires IsNew(o)
    ensures var r := Run(o, ops);
            if r.IsActive() then Apply(EndingOf(r), r).status in TERMINAL else Apply(op, r).status == r.status
  {
    hide Consistent, Apply, Run;
    RunIsConsistent(o, ops);
    if Run(o, ops).IsActive() {
      OneOperationEnds(Run(o, ops));
    } else {
      EndedForGood(Run(o, ops), op);
    }
  }

  /** The driver refuses what was delivered; everything else can be cancelled. */
  function EndingOf(o: Order): Op {
    if o.status == WaitingDriverConfirmation then ConfirmHandover(false) else Cancel
  }

  lemma OneOperationEnds(o: Order)
    requires Consistent(o) && o.IsActive()
    ensures Apply(EndingOf(o), o).status in TERMINAL
  {
    hide WithoutActivity, WithoutPart, AmendActivity, AmendPart, HasActivity, HasPart;
  }

  lemma EndedForGood(o: Order, op: Op)
    requires !o.IsActive()
    ensures Apply(op, o).status == o.status
  {
    hide Apply;
    if IsListOp(op) {
      ListOpsKeepTheRest(op, o);
    } else {
      EndedDoesNotMove(op, o);
    }
  }

  lemma EndedDoesNotMove(op: Op, o: Order)
    requires !o.IsActive() && !IsListOp(op)
    ensures Apply(op, o).status == o.status
  {
  }

  /** A step of a run in which the status may also be forced along the transition table. */
  datatype Step = Do(op: Op) | Force(target: Status)

  function TakeStep(step: Step, o: Order): Order {
    match step
    case Do(op) => Apply(op, o)
    case Force(target) => if target in Allowed(o.status) then o.(status := target) else o
  }

  function TakeSteps(steps: seq<Step>, o: Order): Order {
    if steps == [] then o else TakeStep(steps[|steps| - 1], TakeSteps(steps[..|steps| - 1], o))
  }

  lemma StepStaysOutside(step: Step, o: Order)
    requires o.status !in MUTABLE
    ensures var r := TakeStep(step, o);
            && r.status !in MUTABLE
            && r.activities == o.activities && r.parts == o.parts && r.assignment == o.assignment
            && r.workshopType == o.workshopType && r.workshopId == o.workshopId
  {
    hide WithoutActivity, WithoutPart, AmendActivity, AmendPart, HasActivity, HasPart;
  }

  /** An order that has left the mutable statuses never returns to one, even when statuses are forced;
      its activities, parts, technician, workshop and labor hours stay as they are. */
  lemma {:induction false} LeftMutableForGood(o: Order, steps: seq<Step>)
    requires o.status !in MUTABLE
    ensures var r := TakeSteps(steps, o);
            && r.status !in MUTABLE
            && r.activities == o.activities && r.parts == o.parts && r.assignment == o.assignment
            && r.workshopType == o.workshopType && r.workshopId == o.workshopId
            && TotalLabor(r.activities) == TotalLabor(o.activities)
  {
    hide TakeStep;
    if steps != [] {
      LeftMutableForGood(o, steps[..|steps| - 1]);
      StepStaysOutside(steps[|steps| - 1], TakeSteps(steps[..|steps| - 1], o));
    }
  }

  /** An operation that raises leaves the order alone, except that a refused approval keeps its note. */
  lemma RaisingChangesNothing(op: Op, o: Order)
    requires !Enabled(op, o)
    ensures Apply(op, o) == o <==> !(op.Approve? && Written(op.note) && o.approvalNote != op.note)
    ensures Apply(op, o).(approvalNote := o.approvalNote) == o
  {
  }
}
