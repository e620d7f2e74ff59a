/** What the operations of a run mean for the order they lead to: which of them end it, what can still be
    done, and where the recorded facts come from. */
module RepairOrderHistory {
  import opened Common
  import opened RepairOrders
  import opened RepairOrderLaws

  // ---------------------------------------------------------------- endings

  /** The operations that are meant to end an order. */
  predicate IsEnding(op: Op) {
    op.RejectByTransport? || op.CloseExternalRepair? || op.Complete? || op.CompleteAfterHandover? || op.MarkNoRepairNeeded?
    || op == ConfirmHandover(false) || op.Cancel?
  }

  lemma EndingEnds(op: Op, o: Order)
    requires o.IsActive() && IsEnding(op)
    ensures !Apply(op, o).IsActive() <==> Enabled(op, o)
  {
    hide WithoutActivity, WithoutPart, AmendActivity, AmendPart, HasActivity, HasPart;
  }

  lemma OthersDoNotEnd(op: Op, o: Order)
    requires o.IsActive() && !IsEnding(op) && !IsListOp(op)
    ensures Apply(op, o).IsActive()
  {
    hide WithoutActivity, WithoutPart, AmendActivity, AmendPart, HasActivity, HasPart;
  }

  /** In every run an operation ends an active order exactly when it succeeds and is one of those. */
  lemma EndedExactlyBy(o: Order, ops: seq<Op>, op: Op)
    requires IsNew(o) && Run(o, ops).IsActive()
    ensures !Run(o, ops + [op]).IsActive() <==> Enabled(op, Run(o, ops)) && IsEnding(op)
  {
    hide Apply, Enabled;
    assert (ops + [op])[..|ops|] == ops;
    var r := Run(o, ops);
    if IsListOp(op) {
      ListOpsKeepTheRest(op, r);
    } else if IsEnding(op) {
      EndingEnds(op, r);
    } else {
      OthersDoNotEnd(op, r);
    }
  }

  /** Once work is begun or resumed, it can wait for parts, and it can be completed. */
  lemma WorkIsUnderWay(o: Order, ops: seq<Op>, op: Op, at: Time)
    requires IsNew(o) && Enabled(op, Run(o, ops)) && (op.MarkRepairable? || op.StartWork? || op.ResumeAfterParts?)
    ensures Enabled(WaitForParts, Run(o, ops + [op])) && Enabled(Complete(at), Run(o, ops + [op]))
  {
    assert (ops + [op])[..|ops|] == ops;
  }

  /** Lists can be changed as long as the order is active and was not handed to the driver. */
  lemma MutableUntilHandover(s: Status)
    ensures s in MUTABLE <==> s !in TERMINAL && s !in {WaitingDriverConfirmation, WaitingFinalApproval, AcceptedByDriver}
  {
  }

  // ---------------------------------------------------------------- what can be reached

  /** From every active status that runs reach, a step towards COMPLETED and where it leads. */
  function NextStep(s: Status, at: Time): (Op, Status) {
    match s
    case Created => (Approve(None), Approved)
    case Approved => (AssignWorkshop(Internal, None), WorkshopAssigned)
    case WorkshopAssigned => (AcceptInternalWorkshop, WaitingWorkshopConfirmation)
    case WaitingWorkshopConfirmation => (MarkRepairable(None), InProgress)
    case Assigned => (StartWork, InProgress)
    case WaitingParts => (ResumeAfterParts, InProgress)
    case InProgress => (CompleteWaitingDriver(at), WaitingDriverConfirmation)
    case WaitingReferralApproval => (CompleteWaitingDriver(at), WaitingDriverConfirmation)
    case WaitingDriverConfirmation => (ConfirmHandover(true), WaitingFinalApproval)
    case WaitingFinalApproval => (CompleteAfterHandover(at), Completed)
    case WaitingDelivery => (ConfirmExternalDelivery, ExternalInProgress)
    case ExternalInProgress => (WaitForExternalPickup, WaitingPickup)
    case WaitingPickup => (ConfirmExternalPickup, WaitingAdminReview)
    case WaitingAdminReview => (CloseExternalRepair(at), Completed)
    case _ => (Cancel, Cancelled)
  }

  predicate CanProceed(s: Status) {
    s !in TERMINAL && s != AcceptedByDriver
  }

  ghost predicate StepLeadsOn(o: Order, at: Time) {
    var (op, next) := NextStep(o.status, at);
    && Enabled(op, o) && Apply(op, o).status == next
    && (next == Completed || (CanProceed(next) && ChangesLeft(next) < ChangesLeft(o.status)))
  }

  lemma ExternalStepSucceeds(o: Order, at: Time)
    requires Consistent(o) && o.IsActive() && o.status in EXTERNAL_ONLY
    ensures StepLeadsOn(o, at)
  {
    hide WithoutActivity, WithoutPart, AmendActivity, AmendPart, HasActivity, HasPart;
  }

  lemma InternalStepSucceeds(o: Order, at: Time)
    requires Consistent(o) && o.IsActive() && o.status !in EXTERNAL_ONLY
    ensures StepLeadsOn(o, at)
  {
    hide WithoutActivity, WithoutPart, AmendActivity, AmendPart, HasActivity, HasPart;
  }

  lemma StepSucceeds(o: Order, at: Time)
    requires Consistent(o) && o.IsActive()
    ensures StepLeadsOn(o, at)
  {
    hide Consistent, StepLeadsOn;
    if o.status in EXTERNAL_ONLY {
      ExternalStepSucceeds(o, at);
    } else {
      InternalStepSucceeds(o, at);
    }
  }

  lemma {:induction false} OrderCanComplete(o: Order, ops: seq<Op>, at: Time) returns (more: seq<Op>)
    requires IsNew(o) && Run(o, ops).IsActive()
    ensures Succeeds(o, ops, more) && Run(o, ops + more).status == Completed
    decreases ChangesLeft(Run(o, ops).status)
  {
    hide Apply, Enabled, Consistent, ChangesLeft, NextStep, Run, IsNew;
    RunIsConsistent(o, ops);
    StepSucceeds(Run(o, ops), at);
    var (op, next) := NextStep(Run(o, ops).status, at);
    RunOneMore(o, ops, op);
    if next == Completed {
      more := [op];
      OneSucceeds(o, ops, op);
    } else {
      var rest := OrderCanComplete(o, ops + [op], at);
      more := [op] + rest;
      assert ops + more == ops + [op] + rest;
    }
  }

  /** Each of the further operations succeeds when its turn comes. */
  predicate Succeeds(o: Order, ops: seq<Op>, more: seq<Op>)
    decreases |more|
  {
    more == [] || (Enabled(more[0], Run(o, ops)) && Succeeds(o, ops + [more[0]], more[1..]))
  }

  lemma OneSucceeds(o: Order, ops: seq<Op>, op: Op)
    requires Enabled(op, Run(o, ops))
    ensures Succeeds(o, ops, [op])
  {
  }

  lemma RunOneMore(o: Order, ops: seq<Op>, op: Op)
    ensures Run(o, ops + [op]) == Apply(op, Run(o, ops))
  {
    assert (ops + [op])[..|ops|] == ops;
  }

  /** Every active order that a run reaches can still be completed, by operations that all succeed. */
  lemma EveryRunCanComplete(o: Order, ops: seq<Op>)
    requires IsNew(o) && Run(o, ops).IsActive()
    ensures exists more :: Succeeds(o, ops, more) && Run(o, ops + more).status == Completed
  {
    hide Run, Succeeds, Enabled, IsNew;
    var more := OrderCanComplete(o, ops, 0);
  }

  /** Some run ends in the status. */
  ghost predicate IsReached(o: Order, s: Status) {
    exists ops :: Run(o, ops).status == s
  }

  lemma ReachesNext(o: Order, s: Status, op: Op, next: Status)
    requires IsNew(o) && IsReached(o, s)
    requires forall r :: Consistent(r) && r.status == s ==> Apply(op, r).status == next
    ensures IsReached(o, next)
  {
    hide Consistent, Apply, Run, IsNew;
    var ops :| Run(o, ops).status == s;
    RunIsConsistent(o, ops);
    RunOneMore(o, ops, op);
    assert Run(o, ops + [op]).status == next;
  }

  lemma CreatedIsReached(o: Order)
    requires IsNew(o)
    ensures IsReached(o, Created)
  {
    assert Run(o, []).status == Created;
  }

  lemma EarlyIsReached(o: Order)
    requires IsNew(o)
    ensures IsReached(o, Approved) && IsReached(o, RejectedByTransport)
  {
    hide IsReached, Run, IsNew, WithoutActivity, WithoutPart, AmendActivity, AmendPart, HasActivity, HasPart;
    CreatedIsReached(o);
    ReachesNext(o, Created, Approve(None), Approved);
    ReachesNext(o, Created, RejectByTransport(""), RejectedByTransport);
  }

  lemma AtOnceIsReached(o: Order)
    requires IsNew(o)
    ensures IsReached(o, Assigned) && IsReached(o, Cancelled)
  {
    hide IsReached, Run, IsNew, WithoutActivity, WithoutPart, AmendActivity, AmendPart, HasActivity, HasPart;
    CreatedIsReached(o);
    ReachesNext(o, Created, AssignTechnician(Assignment("", 0)), Assigned);
    ReachesNext(o, Created, Cancel, Cancelled);
  }

  lemma WorkshopIsReached(o: Order)
    requires IsNew(o) && IsReached(o, Approved)
    ensures IsReached(o, WorkshopAssigned)
  {
    hide IsReached, Run, IsNew, WithoutActivity, WithoutPart, AmendActivity, AmendPart, HasActivity, HasPart;
    ReachesNext(o, Approved, AssignWorkshop(Internal, None), WorkshopAssigned);
  }

  lemma InternalIsReached(o: Order)
    requires IsNew(o) && IsReached(o, WorkshopAssigned)
    ensures IsReached(o, WaitingWorkshopConfirmation) && IsReached(o, NoRepairNeeded)
    ensures IsReached(o, InProgress) && IsReached(o, WaitingParts)
  {
    hide IsReached, Run, IsNew, WithoutActivity, WithoutPart, AmendActivity, AmendPart, HasActivity, HasPart;
    ReachesNext(o, WorkshopAssigned, AcceptInternalWorkshop, WaitingWorkshopConfirmation);
    ReachesNext(o, WaitingWorkshopConfirmation, MarkNoRepairNeeded(None), NoRepairNeeded);
    ReachesNext(o, WorkshopAssigned, StartWork, InProgress);
    ReachesNext(o, InProgress, WaitForParts, WaitingParts);
  }

  lemma ExternalIsReached(o: Order)
    requires IsNew(o) && IsReached(o, Approved)
    ensures IsReached(o, WaitingReferralApproval) && IsReached(o, WaitingDelivery) && IsReached(o, ExternalInProgress)
    ensures IsReached(o, WaitingPickup) && IsReached(o, WaitingAdminReview)
  {
    hide IsReached, Run, IsNew, WithoutActivity, WithoutPart, AmendActivity, AmendPart, HasActivity, HasPart;
    ReachesNext(o, Approved, AssignWorkshop(External, None), WaitingReferralApproval);
    ReachesNext(o, Approved, AssignExternalWorkshop(None), WaitingDelivery);
    ReachesNext(o, WaitingDelivery, ConfirmExternalDelivery, ExternalInProgress);
    ReachesNext(o, ExternalInProgress, WaitForExternalPickup, WaitingPickup);
    ReachesNext(o, WaitingPickup, ConfirmExternalPickup, WaitingAdminReview);
  }

  lemma HandoverIsReached(o: Order)
    requires IsNew(o) && IsReached(o, WaitingReferralApproval)
    ensures IsReached(o, WaitingDriverConfirmation) && IsReached(o, RejectedByDriver)
  {
    hide IsReached, Run, IsNew, WithoutActivity, WithoutPart, AmendActivity, AmendPart, HasActivity, HasPart;
    ReachesNext(o, WaitingReferralApproval, CompleteWaitingDriver(0), WaitingDriverConfirmation);
    ReachesNext(o, WaitingDriverConfirmation, ConfirmHandover(false), RejectedByDriver);
  }

  lemma ApprovalIsReached(o: Order)
    requires IsNew(o) && IsReached(o, WaitingDriverConfirmation)
    ensures IsReached(o, WaitingFinalApproval) && IsReached(o, Completed)
  {
    hide IsReached, Run, IsNew, WithoutActivity, WithoutPart, AmendActivity, AmendPart, HasActivity, HasPart;
    ReachesNext(o, WaitingDriverConfirmation, ConfirmHandover(true), WaitingFinalApproval);
    ReachesNext(o, WaitingFinalApproval, CompleteAfterHandover(0), Completed);
  }

  /** Nineteen of the twenty statuses are reached by some run, and ACCEPTED_BY_DRIVER by none. */
  lemma WhatIsReached(o: Order, s: Status)
    requires IsNew(o)
    ensures IsReached(o, s) <==> s != AcceptedByDriver
  {
    hide IsReached, Run, IsNew, Consistent, Apply;
    CreatedIsReached(o);
    EarlyIsReached(o);
    WorkshopIsReached(o);
    InternalIsReached(o);
    ExternalIsReached(o);
    HandoverIsReached(o);
    ApprovalIsReached(o);
    AtOnceIsReached(o);
    NeverAcceptedByDriver(o);
  }

  lemma NeverAcceptedByDriver(o: Order)
    requires IsNew(o)
    ensures !IsReached(o, AcceptedByDriver)
  {
    forall ops ensures Run(o, ops).status != AcceptedByDriver {
      RunIsConsistent(o, ops);
    }
  }

  // ---------------------------------------------------------------- work comes first

  /** At some point of the run the order was IN_PROGRESS. */
  predicate WasInProgress(o: Order, ops: seq<Op>) {
    Run(o, ops).status == InProgress || (ops != [] && WasInProgress(o, ops[..|ops| - 1]))
  }

  const AFTER_WORK: set<Status> :=
    {InProgress, WaitingParts, WaitingDriverConfirmation, WaitingFinalApproval, RejectedByDriver, Completed}

  lemma FirstComesWork(op: Op, o: Order)
    requires Consistent(o) && Apply(op, o).workshopType != Some(External) && Apply(op, o).status in AFTER_WORK
    ensures o.status in AFTER_WORK || Apply(op, o).status == InProgress
    ensures o.workshopType != Some(External)
  {
    hide WithoutActivity, WithoutPart, AmendActivity, AmendPart, HasActivity, HasPart;
  }

  /** In every run, an order that is not repaired externally is handed over, completed or refused by the
      driver only after work on it was in progress. */
  lemma {:induction false} WorkComesFirst(o: Order, ops: seq<Op>)
    requires IsNew(o) && Run(o, ops).workshopType != Some(External) && Run(o, ops).status in AFTER_WORK
    ensures WasInProgress(o, ops)
  {
    hide Apply, Consistent;
    if ops != [] && Run(o, ops).status != InProgress {
      var last := |ops| - 1;
      RunIsConsistent(o, ops[..last]);
      FirstComesWork(ops[last], Run(o, ops[..last]));
      WorkComesFirst(o, ops[..last]);
    }
  }

  // ---------------------------------------------------------------- where the facts come from

  /** The newest value that a successful operation of the run has written. */
  function LastWritten<T>(o: Order, ops: seq<Op>, writes: Op -> Option<T>): Option<T> {
    if ops == [] then None else
    var last := |ops| - 1;
    if Enabled(ops[last], Run(o, ops[..last])) && writes(ops[last]).Some? then writes(ops[last])
    else LastWritten(o, ops[..last], writes)
  }

  function TimeOf(op: Op): Option<Time> {
    match op
    case Complete(at) => Some(at)
    case CompleteWaitingDriver(at) => Some(at)
    case CloseExternalRepair(at) => Some(at)
    case CompleteAfterHandover(at) => Some(at)
    case _ => None
  }

  function TechnicianOf(op: Op): Option<Assignment> {
    if op.AssignTechnician? then Some(op.assignment) else None
  }

  /** The kind of workshop and which one. */
  function WorkshopOf(op: Op): Option<(WorkshopType, Option<string>)> {
    match op
    case AssignWorkshop(workshop, id) => Some((workshop, id))
    case AssignExternalWorkshop(id) => Some((External, id))
    case _ => None
  }

  function ReasonOf(op: Op): Option<string> {
    if op.RejectByTransport? then Some(op.reason) else None
  }

  function DecisionNoteOf(op: Op): Option<string> {
    if (op.MarkRepairable? || op.MarkNoRepairNeeded?) && op.note != Some("") then op.note else None
  }

  function SapNumberOf(op: Op): Option<string> {
    if op.LinkSapOrder? then Some(op.number) else None
  }

  /** The newest approval note that is not empty, whether or not the approval went through. */
  function LastApprovalNote(ops: seq<Op>): Option<string> {
    if ops == [] then None else
    var last := ops[|ops| - 1];
    if last.Approve? && last.note != None && last.note != Some("") then last.note else LastApprovalNote(ops[..|ops| - 1])
  }

  predicate FactsFrom(o: Order, ops: seq<Op>) {
    var r := Run(o, ops);
    && r.completedAt == LastWritten(o, ops, TimeOf)
    && r.assignment == LastWritten(o, ops, TechnicianOf)
    && r.workshopType == (match LastWritten(o, ops, WorkshopOf) case Some(w) => Some(w.0) case None => None)
    && r.workshopId == (match LastWritten(o, ops, WorkshopOf) case Some(w) => w.1 case None => None)
    && r.rejectionReason == LastWritten(o, ops, ReasonOf)
    && r.decisionNote == LastWritten(o, ops, DecisionNoteOf)
    && r.sapNumber == LastWritten(o, ops, SapNumberOf)
    && r.approvalNote == LastApprovalNote(ops)
  }

  /** What one operation does to the recorded facts. */
  predicate WritesFacts(op: Op, o: Order) {
    var r, done := Apply(op, o), Enabled(op, o);
    && r.completedAt == (if done && TimeOf(op).Some? then TimeOf(op) else o.completedAt)
    && r.assignment == (if done && TechnicianOf(op).Some? then TechnicianOf(op) else o.assignment)
    && r.workshopType == (if done && WorkshopOf(op).Some? then Some(WorkshopOf(op).value.0) else o.workshopType)
    && r.workshopId == (if done && WorkshopOf(op).Some? then WorkshopOf(op).value.1 else o.workshopId)
    && r.rejectionReason == (if done && ReasonOf(op).Some? then ReasonOf(op) else o.rejectionReason)
    && r.decisionNote == (if done && DecisionNoteOf(op).Some? then DecisionNoteOf(op) else o.decisionNote)
    && r.sapNumber == (if done && SapNumberOf(op).Some? then SapNumberOf(op) else o.sapNumber)
    && r.approvalNote == (if op.Approve? && op.note != None && op.note != Some("") then op.note else o.approvalNote)
  }

  lemma ListOpsWriteFacts(op: Op, o: Order)
    requires IsListOp(op)
    ensures WritesFacts(op, o)
  {
    hide WithoutActivity, WithoutPart, AmendActivity, AmendPart, HasActivity, HasPart;
  }

  lemma StatusOpsWriteFacts(op: Op, o: Order)
    requires !IsListOp(op)
    ensures WritesFacts(op, o)
  {
    hide WithoutActivity, WithoutPart, AmendActivity, AmendPart, HasActivity, HasPart;
  }

  /** In every run each recorded fact is what the newest successful operation that carries it has said. */
  lemma {:induction false} RecordedFactsHaveASource(o: Order, ops: seq<Op>)
    requires IsNew(o)
    ensures FactsFrom(o, ops)
  {
    if ops != [] {
      hide Apply, Enabled, IsNew, TimeOf, TechnicianOf, WorkshopOf, ReasonOf, DecisionNoteOf, SapNumberOf;
      var last := |ops| - 1;
      RecordedFactsHaveASource(o, ops[..last]);
      if IsListOp(ops[last]) {
        ListOpsWriteFacts(ops[last], Run(o, ops[..last]));
      } else {
        StatusOpsWriteFacts(ops[last], Run(o, ops[..last]));
      }
    }
  }

  /** Only the operations on a list change it, and an addition goes to its end. */
  lemma ListsChangeByTheirOperations(op: Op, o: Order)
    ensures !op.AddActivity? && !op.UpdateActivity? && !op.DeleteActivity? ==> Apply(op, o).activities == o.activities
    ensures !op.AddPart? && !op.UpdatePart? && !op.DeletePart? ==> Apply(op, o).parts == o.parts
    ensures op.AddActivity? && o.status in MUTABLE ==>
              |Apply(op, o).activities| == |o.activities| + 1 && o.activities < Apply(op, o).activities
              && Apply(op, o).activities[|o.activities|] == op.activity
    ensures op.AddPart? && o.status in MUTABLE ==>
              |Apply(op, o).parts| == |o.parts| + 1 && o.parts < Apply(op, o).parts
              && Apply(op, o).parts[|o.parts|] == op.part
  {
    hide WithoutActivity, WithoutPart, AmendActivity, AmendPart;
  }

  /** The labor total of an order counts the hours of each of its activities once. */
  lemma {:induction false} LaborIsTheSum(s: seq<Activity>, a: Activity)
    ensures TotalLabor([]) == 0.0 && TotalLabor(s + [a]) == TotalLabor(s) + a.hours
  {
    if s == [] {
      assert s + [a] == [a] && [a][1..] == [];
    } else {
      LaborIsTheSum(s[1..], a);
      assert (s + [a])[1..] == s[1..] + [a];
    }
  }
}
