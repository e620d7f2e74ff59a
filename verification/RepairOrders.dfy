/** The repair order aggregate: its values, what each operation does to them, and the mutable object. */
module RepairOrders {
  import opened Common

  type Id = string

  datatype Status =
    | Created | Approved | WorkshopAssigned | WaitingReferralApproval | WaitingDelivery
    | ExternalInProgress | WaitingPickup | WaitingAdminReview | WaitingWorkshopConfirmation
    | WaitingParts | Assigned | InProgress | WaitingDriverConfirmation | WaitingFinalApproval
    | AcceptedByDriver | RejectedByDriver | RejectedByTransport | NoRepairNeeded | Completed | Cancelled

  datatype WorkshopType = Internal | External

  function Allowed(s: Status): set<Status> {
    match s
    case Created => {Approved, Assigned, Cancelled}
    case Approved => {WorkshopAssigned, WaitingReferralApproval, WaitingDelivery, Cancelled}
    case WaitingReferralApproval => {WaitingDriverConfirmation, WaitingDelivery, Cancelled}
    case WaitingDelivery => {ExternalInProgress, WaitingDelivery, Cancelled}
    case ExternalInProgress => {WaitingPickup, Cancelled}
    case WaitingPickup => {WaitingAdminReview, Cancelled}
    case WaitingAdminReview => {Completed, Cancelled}
    case WorkshopAssigned =>
      {Assigned, WaitingWorkshopConfirmation, InProgress, NoRepairNeeded, WaitingDriverConfirmation, Cancelled}
    case WaitingWorkshopConfirmation => {InProgress, NoRepairNeeded, Cancelled}
    case WaitingParts => {InProgress, Cancelled}
    case Assigned => {InProgress, Created, Cancelled}
    case InProgress => {Completed, WaitingParts, WaitingDriverConfirmation, Cancelled}
    case WaitingDriverConfirmation => {WaitingFinalApproval, AcceptedByDriver, RejectedByDriver}
    case WaitingFinalApproval => {Completed, Cancelled}
    case AcceptedByDriver => {Completed}
    case RejectedByDriver => {}
    case RejectedByTransport => {}
    case NoRepairNeeded => {}
    case Completed => {}
    case Cancelled => {}
  }

  const MUTABLE: set<Status> :=
    {Created, Approved, WorkshopAssigned, WaitingReferralApproval, WaitingDelivery, ExternalInProgress,
     WaitingPickup, WaitingAdminReview, WaitingWorkshopConfirmation, WaitingParts, Assigned, InProgress}

  const TERMINAL: set<Status> := {Completed, Cancelled, RejectedByDriver, RejectedByTransport, NoRepairNeeded}

  type Hours = h: real | 0.0 <= h

  datatype Assignment = Assignment(technicianId: Id, assignedAt: Time)
  datatype Activity = Activity(id: Id, description: string, hours: Hours, performedBy: Id, performedAt: Time,
                               notes: Option<string>)
  datatype PartQuantity = PartQuantity(material: string, quantity: nat, unit: string)
  datatype Part = Part(id: Id, quantity: PartQuantity, goodsIssue: Option<Id>, postedAt: Option<Time>)

  datatype Order = Order(
    id: Id, vehicleId: Id, faultId: Id, status: Status, createdBy: Id, createdAt: Time,
    assignment: Option<Assignment>, activities: seq<Activity>, parts: seq<Part>,
    sapNumber: Option<string>, workshopType: Option<WorkshopType>, workshopId: Option<string>,
    rejectionReason: Option<string>, approvalNote: Option<string>, decisionNote: Option<string>,
    completedAt: Option<Time>)
  {
    predicate IsActive() {
      status !in TERMINAL
    }
  }

  function NewOrder(id: Id, vehicleId: Id, faultId: Id, createdBy: Id, createdAt: Time): Order {
    Order(id, vehicleId, faultId, Created, createdBy, createdAt, None, [], [], None, None, None, None, None, None, None)
  }

  function TotalLabor(activities: seq<Activity>): real {
    if activities == [] then 0.0 else activities[0].hours + TotalLabor(activities[1..])
  }

  datatype Op =
    | AssignTechnician(assignment: Assignment)
    | Approve(note: Option<string>)
    | RejectByTransport(reason: string)
    | AssignWorkshop(workshop: WorkshopType, workshopId: Option<string>)
    | AssignExternalWorkshop(workshopId: Option<string>)
    | ConfirmExternalDelivery
    | WaitForExternalPickup
    | ConfirmExternalPickup
    | CloseExternalRepair(at: Time)
    | AcceptInternalWorkshop
    | MarkRepairable(note: Option<string>)
    | MarkNoRepairNeeded(note: Option<string>)
    | StartWork
    | Complete(at: Time)
    | CompleteWaitingDriver(at: Time)
    | WaitForParts
    | ResumeAfterParts
    | ConfirmHandover(accepted: bool)
    | CompleteAfterHandover(at: Time)
    | Cancel
    | AddActivity(activity: Activity)
    | UpdateActivity(activityId: Id, description: string, hours: Hours, notes: Option<string>)
    | DeleteActivity(activityId: Id)
    | AddPart(part: Part)
    | UpdatePart(partId: Id, quantity: PartQuantity)
    | DeletePart(partId: Id)
    | LinkSapOrder(number: string)

  /** A note that is absent or empty writes nothing. */
  predicate Written(note: Option<string>) {
    note.Some? && note.value != ""
  }

  predicate HasActivity(activities: seq<Activity>, id: Id) {
    exists i :: 0 <= i < |activities| && activities[i].id == id
  }

  predicate HasPart(parts: seq<Part>, id: Id) {
    exists i :: 0 <= i < |parts| && parts[i].id == id
  }

  /** The list with its first activity of that identifier replaced. */
  function AmendActivity(s: seq<Activity>, id: Id, description: string, hours: Hours, notes: Option<string>)
    : (r: seq<Activity>)
    ensures |r| == |s|
  {
    if s == [] then []
    else if s[0].id == id then [s[0].(description := description, hours := hours, notes := notes)] + s[1..]
    else [s[0]] + AmendActivity(s[1..], id, description, hours, notes)
  }

  function AmendPart(s: seq<Part>, id: Id, quantity: PartQuantity): (r: seq<Part>)
    ensures |r| == |s|
  {
    if s == [] then []
    else if s[0].id == id then [s[0].(quantity := quantity)] + s[1..]
    else [s[0]] + AmendPart(s[1..], id, quantity)
  }

  lemma {:induction false} AmendsTheFirstActivity(s: seq<Activity>, i: nat, id: Id, description: string, hours: Hours,
                                                  notes: Option<string>)
    requires i < |s| && s[i].id == id && forall j :: 0 <= j < i ==> s[j].id != id
    ensures AmendActivity(s, id, description, hours, notes)
         == s[i := s[i].(description := description, hours := hours, notes := notes)]
  {
    if i > 0 {
      AmendsTheFirstActivity(s[1..], i - 1, id, description, hours, notes);
    }
  }

  lemma {:induction false} AmendsTheFirstPart(s: seq<Part>, i: nat, id: Id, quantity: PartQuantity)
    requires i < |s| && s[i].id == id && forall j :: 0 <= j < i ==> s[j].id != id
    ensures AmendPart(s, id, quantity) == s[i := s[i].(quantity := quantity)]
  {
    if i > 0 {
      AmendsTheFirstPart(s[1..], i - 1, id, quantity);
    }
  }

  function Filter<T>(s: seq<T>, keep: T -> bool): seq<T> {
    if s == [] then [] else (if keep(s[0]) then [s[0]] else []) + Filter(s[1..], keep)
  }

  lemma FilterOfFirst<T>(x: T, s: seq<T>, keep: T -> bool)
    ensures Filter([x] + s, keep) == (if keep(x) then [x] else []) + Filter(s, keep)
    ensures Filter([x], keep) == if keep(x) then [x] else []
  {
    assert ([x] + s)[1..] == s;
  }

  lemma Associates<T>(a: seq<T>, b: seq<T>, c: seq<T>)
    ensures a + b + c == a + (b + c)
  {
  }

  /** Filtering keeps or drops each item by itself and leaves the kept ones in order. */
  lemma {:induction false} FilterIsItemwise<T>(s: seq<T>, t: seq<T>, keep: T -> bool)
    ensures Filter(s + t, keep) == Filter(s, keep) + Filter(t, keep)
  {
    if s == [] {
      assert s + t == t;
    } else {
      hide Filter;
      var x, rest := s[0], s[1..];
      FilterIsItemwise(rest, t, keep);
      FilterOfFirst(x, rest, keep);
      FilterOfFirst(x, rest + t, keep);
      Associates([x], rest, t);
      Associates(if keep(x) then [x] else [], Filter(rest, keep), Filter(t, keep));
      assert s == [x] + rest;
    }
  }

  lemma {:induction false} FilterDropsSome<T>(s: seq<T>, keep: T -> bool)
    ensures |Filter(s, keep)| <= |s|
    ensures |Filter(s, keep)| == |s| <==> forall i :: 0 <= i < |s| ==> keep(s[i])
    ensures |Filter(s, keep)| == |s| ==> Filter(s, keep) == s
  {
    if s != [] {
      FilterDropsSome(s[1..], keep);
      assert forall i :: 0 < i < |s| ==> s[i] == s[1..][i - 1];
    }
  }

  function WithoutActivity(s: seq<Activity>, id: Id): (r: seq<Activity>)
    ensures |r| <= |s| && (|r| == |s| <==> !HasActivity(s, id))
    ensures |r| == |s| ==> r == s
  {
    FilterDropsSome(s, (a: Activity) => a.id != id);
    Filter(s, (a: Activity) => a.id != id)
  }

  function WithoutPart(s: seq<Part>, id: Id): (r: seq<Part>)
    ensures |r| <= |s| && (|r| == |s| <==> !HasPart(s, id))
    ensures |r| == |s| ==> r == s
  {
    FilterDropsSome(s, (p: Part) => p.id != id);
    Filter(s, (p: Part) => p.id != id)
  }

  /** A deletion takes what carries that identifier, item by item, and leaves the rest in order. */
  lemma RemovalIsItemwise(s: seq<Activity>, t: seq<Activity>, p: seq<Part>, q: seq<Part>, id: Id)
    ensures WithoutActivity(s + t, id) == WithoutActivity(s, id) + WithoutActivity(t, id)
    ensures WithoutPart(p + q, id) == WithoutPart(p, id) + WithoutPart(q, id)
    ensures |s| == 1 ==> WithoutActivity(s, id) == if s[0].id == id then [] else s
    ensures |p| == 1 ==> WithoutPart(p, id) == if p[0].id == id then [] else p
  {
    FilterIsItemwise(s, t, (a: Activity) => a.id != id);
    FilterIsItemwise(p, q, (a: Part) => a.id != id);
    if |s| == 1 {
      FilterOfFirst(s[0], [], (a: Activity) => a.id != id);
      assert s == [s[0]];
    }
    if |p| == 1 {
      FilterOfFirst(p[0], [], (a: Part) => a.id != id);
      assert p == [p[0]];
    }
  }

  /** When an operation succeeds. */
  predicate Enabled(op: Op, o: Order) {
    var s, external, internal := o.status, o.workshopType == Some(External), o.workshopType == Some(Internal);
    match op
    case AssignTechnician(_) => s in {Created, WorkshopAssigned}
    case Approve(_) => s == Created
    case RejectByTransport(_) => s == Created
    case AssignWorkshop(_, _) => s == Approved && o.workshopType == None
    case AssignExternalWorkshop(_) => s in {Approved, WaitingDelivery}
    case ConfirmExternalDelivery => external && s == WaitingDelivery
    case WaitForExternalPickup => external && s == ExternalInProgress
    case ConfirmExternalPickup => external && s in {ExternalInProgress, WaitingPickup}
    case CloseExternalRepair(_) => external && s in {WaitingAdminReview, InProgress, WaitingFinalApproval, AcceptedByDriver}
    case AcceptInternalWorkshop => internal && s == WorkshopAssigned
    case MarkRepairable(_) => internal && s in {WorkshopAssigned, WaitingWorkshopConfirmation}
    case MarkNoRepairNeeded(_) => internal && s in {WorkshopAssigned, WaitingWorkshopConfirmation}
    case StartWork => !external && s in {Assigned, WorkshopAssigned, WaitingWorkshopConfirmation}
    case Complete(_) => s in {WaitingAdminReview, InProgress, WaitingFinalApproval, AcceptedByDriver}
    case CompleteWaitingDriver(_) =>
      s in {WaitingReferralApproval, InProgress} || (s == WorkshopAssigned && external)
    case WaitForParts => s == InProgress
    case ResumeAfterParts => s in {WorkshopAssigned, WaitingWorkshopConfirmation, WaitingParts, Assigned}
    case ConfirmHandover(_) => s == WaitingDriverConfirmation
    case CompleteAfterHandover(_) => s in {WaitingAdminReview, InProgress, WaitingFinalApproval, AcceptedByDriver}
    case Cancel => s in MUTABLE || s == WaitingFinalApproval
    case AddActivity(_) => s in MUTABLE
    case UpdateActivity(id, _, _, _) => s in MUTABLE && HasActivity(o.activities, id)
    case DeleteActivity(id) => s in MUTABLE && HasActivity(o.activities, id)
    case AddPart(_) => s in MUTABLE
    case UpdatePart(id, _) => s in MUTABLE && HasPart(o.parts, id)
    case DeletePart(id) => s in MUTABLE && HasPart(o.parts, id)
    case LinkSapOrder(_) => true
  }

  /** What an operation that succeeds does. */
  function Effect(op: Op, o: Order): Order {
    match op
    case AssignTechnician(a) => o.(status := Assigned, assignment := Some(a))
    case Approve(note) => o.(status := Approved, approvalNote := if Written(note) then note else o.approvalNote)
    case RejectByTransport(reason) => o.(status := RejectedByTransport, rejectionReason := Some(reason))
    case AssignWorkshop(w, id) =>
      o.(status := if w == External then WaitingReferralApproval else WorkshopAssigned,
         workshopType := Some(w), workshopId := id)
    case AssignExternalWorkshop(id) => o.(status := WaitingDelivery, workshopType := Some(External), workshopId := id)
    case ConfirmExternalDelivery => o.(status := ExternalInProgress)
    case WaitForExternalPickup => o.(status := WaitingPickup)
    case ConfirmExternalPickup => o.(status := WaitingAdminReview)
    case CloseExternalRepair(at) => o.(status := Completed, completedAt := Some(at))
    case AcceptInternalWorkshop => o.(status := WaitingWorkshopConfirmation)
    case MarkRepairable(note) => o.(status := InProgress, decisionNote := if Written(note) then note else o.decisionNote)
    case MarkNoRepairNeeded(note) =>
      o.(status := NoRepairNeeded, decisionNote := if Written(note) then note else o.decisionNote)
    case StartWork => o.(status := InProgress)
    case Complete(at) => o.(status := Completed, completedAt := Some(at))
    case CompleteWaitingDriver(at) => o.(status := WaitingDriverConfirmation, completedAt := Some(at))
    case WaitForParts => o.(status := WaitingParts)
    case ResumeAfterParts => o.(status := InProgress)
    case ConfirmHandover(accepted) => o.(status := if accepted then WaitingFinalApproval else RejectedByDriver)
    case CompleteAfterHandover(at) => o.(status := Completed, completedAt := Some(at))
    case Cancel => o.(status := Cancelled)
    case AddActivity(a) => o.(activities := o.activities + [a])
    case UpdateActivity(id, d, h, n) => o.(activities := AmendActivity(o.activities, id, d, h, n))
    case DeleteActivity(id) => o.(activities := WithoutActivity(o.activities, id))
    case AddPart(p) => o.(parts := o.parts + [p])
    case UpdatePart(id, q) => o.(parts := AmendPart(o.parts, id, q))
    case DeletePart(id) => o.(parts := WithoutPart(o.parts, id))
    case LinkSapOrder(number) => o.(sapNumber := Some(number))
  }

  /** What an operation does, whether or not it raises. A refused approval has written its note. */
  function Apply(op: Op, o: Order): Order {
    if Enabled(op, o) then Effect(op, o)
    else if op.Approve? && Written(op.note) then o.(approvalNote := op.note)
    else o
  }

  /** The rest of the table, read backwards: from where each of the earlier statuses is allowed. */
  lemma WhereRepairsCome(s: Status)
    ensures Created in Allowed(s) <==> s == Assigned
    ensures Approved in Allowed(s) <==> s == Created
    ensures Assigned in Allowed(s) <==> s in {Created, WorkshopAssigned}
    ensures WorkshopAssigned in Allowed(s) <==> s == Approved
    ensures WaitingReferralApproval in Allowed(s) <==> s == Approved
    ensures WaitingDelivery in Allowed(s) <==> s in {Approved, WaitingReferralApproval, WaitingDelivery}
    ensures ExternalInProgress in Allowed(s) <==> s == WaitingDelivery
    ensures WaitingWorkshopConfirmation in Allowed(s) <==> s == WorkshopAssigned
    ensures NoRepairNeeded in Allowed(s) <==> s in {WorkshopAssigned, WaitingWorkshopConfirmation}
    ensures InProgress in Allowed(s) <==> s in {WorkshopAssigned, WaitingWorkshopConfirmation, WaitingParts, Assigned}
    ensures WaitingParts in Allowed(s) <==> s == InProgress
    ensures WaitingFinalApproval in Allowed(s) <==> s == WaitingDriverConfirmation
    ensures AcceptedByDriver in Allowed(s) <==> s == WaitingDriverConfirmation
    ensures RejectedByDriver in Allowed(s) <==> s == WaitingDriverConfirmation
    ensures RejectedByTransport !in Allowed(s)
    ensures Cancelled in Allowed(s) <==> s !in TERMINAL && s != WaitingDriverConfirmation && s != AcceptedByDriver
  {
  }

  /** The statuses from which the table allows the steps of the last phase. */
  lemma WhereRepairsEnd(s: Status)
    ensures WaitingDriverConfirmation in Allowed(s) <==> s in {WaitingReferralApproval, WorkshopAssigned, InProgress}
    ensures Completed in Allowed(s) <==> s in {WaitingAdminReview, InProgress, WaitingFinalApproval, AcceptedByDriver}
    ensures WaitingAdminReview in Allowed(s) <==> s == WaitingPickup
    ensures WaitingPickup in Allowed(s) <==> s == ExternalInProgress
  {
  }

  class RepairOrder {
    const id: Id
    const vehicleId: Id
    const faultId: Id
    var status: Status
    const createdBy: Id
    const createdAt: Time
    var assignment: Option<Assignment>
    var activities: seq<Activity>
    var parts: seq<Part>
    var sapNumber: Option<string>
    var workshopType: Option<WorkshopType>
    var workshopId: Option<string>
    var rejectionReason: Option<string>
    var approvalNote: Option<string>
    var decisionNote: Option<string>
    var completedAt: Option<Time>

    function View(): Order
      reads this
    {
      Order(id, vehicleId, faultId, status, createdBy, createdAt, assignment, activities, parts, sapNumber,
            workshopType, workshopId, rejectionReason, approvalNote, decisionNote, completedAt)
    }

    constructor (o: Order)
      ensures View() == o
    {
      id, vehicleId, faultId, status := o.id, o.vehicleId, o.faultId, o.status;
      createdBy, createdAt, assignment := o.createdBy, o.createdAt, o.assignment;
      activities, parts, sapNumber := o.activities, o.parts, o.sapNumber;
      workshopType, workshopId := o.workshopType, o.workshopId;
      rejectionReason, approvalNote, decisionNote := o.rejectionReason, o.approvalNote, o.decisionNote;
      completedAt := o.completedAt;
    }

    method TransitionTo(target: Status) returns (ok: bool)
      modifies this`status
      ensures ok <==> target in Allowed(old(status))
      ensures status == if ok then target else old(status)
    {
      ok := target in Allowed(status);
      if ok {
        status := target;
      }
    }

    method AssignTechnician(a: Assignment) returns (ok: bool)
      modifies this
      ensures ok <==> Enabled(Op.AssignTechnician(a), old(View()))
      ensures View() == Apply(Op.AssignTechnician(a), old(View()))
    {
      if status !in MUTABLE {
        return false;
      }
      ok := TransitionTo(Assigned);
      if ok {
        assignment := Some(a);
      }
    }

    method Approve(note: Option<string>) returns (ok: bool)
      modifies this
      ensures ok <==> Enabled(Op.Approve(note), old(View()))
      ensures View() == Apply(Op.Approve(note), old(View()))
    {
      if Written(note) {
        approvalNote := note;
      }
      ok := TransitionTo(Approved);
    }

    method RejectByTransport(reason: string) returns (ok: bool)
      modifies this
      ensures ok <==> Enabled(Op.RejectByTransport(reason), old(View()))
      ensures View() == Apply(Op.RejectByTransport(reason), old(View()))
    {
      if status != Created {
        return false;
      }
      status := RejectedByTransport;
      rejectionReason := Some(reason);
      ok := true;
    }

    method AssignWorkshop(workshop: WorkshopType, workshopId: Option<string>) returns (ok: bool)
      modifies this
      ensures ok <==> Enabled(Op.AssignWorkshop(workshop, workshopId), old(View()))
      ensures View() == Apply(Op.AssignWorkshop(workshop, workshopId), old(View()))
    {
      if status != Approved || workshopType.Some? {
        return false;
      }
      workshopType := Some(workshop);
      this.workshopId := workshopId;
      if workshop == External {
        ok := TransitionTo(WaitingReferralApproval);
      } else {
        ok := TransitionTo(WorkshopAssigned);
      }
    }

    method AssignExternalWorkshop(workshopId: Option<string>) returns (ok: bool)
      modifies this
      ensures ok <==> Enabled(Op.AssignExternalWorkshop(workshopId), old(View()))
      ensures View() == Apply(Op.AssignExternalWorkshop(workshopId), old(View()))
    {
      if status !in {Approved, WaitingDelivery} {
        return false;
      }
      workshopType := Some(External);
      this.workshopId := workshopId;
      ok := TransitionTo(WaitingDelivery);
    }

    method ConfirmExternalDelivery() returns (ok: bool)
      modifies this
      ensures ok <==> Enabled(Op.ConfirmExternalDelivery, old(View()))
      ensures View() == Apply(Op.ConfirmExternalDelivery, old(View()))
    {
      if workshopType != Some(External) {
        return false;
      }
      ok := TransitionTo(ExternalInProgress);
    }

    method WaitForExternalPickup() returns (ok: bool)
      modifies this
      ensures ok <==> Enabled(Op.WaitForExternalPickup, old(View()))
      ensures View() == Apply(Op.WaitForExternalPickup, old(View()))
    {
      if workshopType != Some(External) {
        return false;
      }
      ok := TransitionTo(WaitingPickup);
    }

    method ConfirmExternalPickup() returns (ok: bool)
      modifies this
      ensures ok <==> Enabled(Op.ConfirmExternalPickup, old(View()))
      ensures View() == Apply(Op.ConfirmExternalPickup, old(View()))
    {
      hide Allowed;
      WhereRepairsEnd(WaitingPickup);
      WhereRepairsEnd(status);
      if workshopType != Some(External) {
        return false;
      }
      if status == ExternalInProgress {
        var _ := WaitForExternalPickup();
      }
      ok := TransitionTo(WaitingAdminReview);
    }

    method CloseExternalRepair(at: Time) returns (ok: bool)
      modifies this
      ensures ok <==> Enabled(Op.CloseExternalRepair(at), old(View()))
      ensures View() == Apply(Op.CloseExternalRepair(at), old(View()))
    {
      hide Allowed;
      WhereRepairsEnd(status);
      if workshopType != Some(External) {
        return false;
      }
      ok := TransitionTo(Completed);
      if ok {
        completedAt := Some(at);
      }
    }

    method AcceptInternalWorkshop() returns (ok: bool)
      modifies this
      ensures ok <==> Enabled(Op.AcceptInternalWorkshop, old(View()))
      ensures View() == Apply(Op.AcceptInternalWorkshop, old(View()))
    {
      if workshopType != Some(Internal) {
        return false;
      }
      ok := TransitionTo(WaitingWorkshopConfirmation);
    }

    method MarkRepairable(note: Option<string>) returns (ok: bool)
      modifies this
      ensures ok <==> Enabled(Op.MarkRepairable(note), old(View()))
      ensures View() == Apply(Op.MarkRepairable(note), old(View()))
    {
      if workshopType != Some(Internal) || status !in {WorkshopAssigned, WaitingWorkshopConfirmation} {
        return false;
      }
      if Written(note) {
        decisionNote := note;
      }
      ok := TransitionTo(InProgress);
    }

    method MarkNoRepairNeeded(note: Option<string>) returns (ok: bool)
      modifies this
      ensures ok <==> Enabled(Op.MarkNoRepairNeeded(note), old(View()))
      ensures View() == Apply(Op.MarkNoRepairNeeded(note), old(View()))
    {
      if workshopType != Some(Internal) || status !in {WorkshopAssigned, WaitingWorkshopConfirmation} {
        return false;
      }
      if Written(note) {
        decisionNote := note;
      }
      ok := TransitionTo(NoRepairNeeded);
    }

    method StartWork() returns (ok: bool)
      modifies this
      ensures ok <==> Enabled(Op.StartWork, old(View()))
      ensures View() == Apply(Op.StartWork, old(View()))
    {
      if workshopType == Some(External) || status !in {Assigned, WorkshopAssigned, WaitingWorkshopConfirmation} {
        return false;
      }
      ok := TransitionTo(InProgress);
    }

    method Complete(at: Time) returns (ok: bool)
      modifies this
      ensures ok <==> Enabled(Op.Complete(at), old(View()))
      ensures View() == Apply(Op.Complete(at), old(View()))
    {
      hide Allowed;
      WhereRepairsEnd(status);
      ok := TransitionTo(Completed);
      if ok {
        completedAt := Some(at);
      }
    }

    method CompleteWaitingDriver(at: Time) returns (ok: bool)
      modifies this
      ensures ok <==> Enabled(Op.CompleteWaitingDriver(at), old(View()))
      ensures View() == Apply(Op.CompleteWaitingDriver(at), old(View()))
    {
      hide Allowed;
      WhereRepairsEnd(status);
      if status == WorkshopAssigned && workshopType != Some(External) {
        return false;
      }
      ok := TransitionTo(WaitingDriverConfirmation);
      if ok {
        completedAt := Some(at);
      }
    }

    method WaitForParts() returns (ok: bool)
      modifies this
      ensures ok <==> Enabled(Op.WaitForParts, old(View()))
      ensures View() == Apply(Op.WaitForParts, old(View()))
    {
      ok := TransitionTo(WaitingParts);
    }

    method ResumeAfterParts() returns (ok: bool)
      modifies this
      ensures ok <==> Enabled(Op.ResumeAfterParts, old(View()))
      ensures View() == Apply(Op.ResumeAfterParts, old(View()))
    {
      ok := TransitionTo(InProgress);
    }

    method ConfirmHandover(accepted: bool) returns (ok: bool)
      modifies this
      ensures ok <==> Enabled(Op.ConfirmHandover(accepted), old(View()))
      ensures View() == Apply(Op.ConfirmHandover(accepted), old(View()))
    {
      if accepted {
        ok := TransitionTo(WaitingFinalApproval);
      } else {
        ok := TransitionTo(RejectedByDriver);
      }
    }

    method CompleteAfterHandover(at: Time) returns (ok: bool)
      modifies this
      ensures ok <==> Enabled(Op.CompleteAfterHandover(at), old(View()))
      ensures View() == Apply(Op.CompleteAfterHandover(at), old(View()))
    {
      hide Allowed;
      WhereRepairsEnd(status);
      ok := TransitionTo(Completed);
      if ok {
        completedAt := Some(at);
      }
    }

    method Cancel() returns (ok: bool)
      modifies this
      ensures ok <==> Enabled(Op.Cancel, old(View()))
      ensures View() == Apply(Op.Cancel, old(View()))
    {
      ok := TransitionTo(Cancelled);
    }

    method AddActivity(activity: Activity) returns (ok: bool)
      modifies this
      ensures ok <==> Enabled(Op.AddActivity(activity), old(View()))
      ensures View() == Apply(Op.AddActivity(activity), old(View()))
    {
      if status !in MUTABLE {
        return false;
      }
      activities := activities + [activity];
      ok := true;
    }

    method UpdateActivity(activityId: Id, description: string, hours: Hours, notes: Option<string>) returns (ok: bool)
      modifies this
      ensures ok <==> Enabled(Op.UpdateActivity(activityId, description, hours, notes), old(View()))
      ensures View() == Apply(Op.UpdateActivity(activityId, description, hours, notes), old(View()))
    {
      if status !in MUTABLE {
        return false;
      }
      var i := 0;
      while i < |activities|
        invariant 0 <= i <= |activities|
        invariant View() == old(View())
        invariant forall j :: 0 <= j < i ==> activities[j].id != activityId
      {
        if activities[i].id == activityId {
          AmendsTheFirstActivity(activities, i, activityId, description, hours, notes);
          activities := activities[i := activities[i].(description := description, hours := hours, notes := notes)];
          return true;
        }
        i := i + 1;
      }
      ok := false;
    }

    method DeleteActivity(activityId: Id) returns (ok: bool)
      modifies this
      ensures ok <==> Enabled(Op.DeleteActivity(activityId), old(View()))
      ensures View() == Apply(Op.DeleteActivity(activityId), old(View()))
    {
      if status !in MUTABLE {
        return false;
      }
      var remaining := WithoutActivity(activities, activityId);
      if |remaining| == |activities| {
        return false;
      }
      activities := remaining;
      ok := true;
    }

    method AddPart(part: Part) returns (ok: bool)
      modifies this
      ensures ok <==> Enabled(Op.AddPart(part), old(View()))
      ensures View() == Apply(Op.AddPart(part), old(View()))
    {
      if status !in MUTABLE {
        return false;
      }
      parts := parts + [part];
      ok := true;
    }

    method UpdatePart(partId: Id, quantity: PartQuantity) returns (ok: bool)
      modifies this
      ensures ok <==> Enabled(Op.UpdatePart(partId, quantity), old(View()))
      ensures View() == Apply(Op.UpdatePart(partId, quantity), old(View()))
    {
      if status !in MUTABLE {
        return false;
      }
      var i := 0;
      while i < |parts|
        invariant 0 <= i <= |parts|
        invariant View() == old(View())
        invariant forall j :: 0 <= j < i ==> parts[j].id != partId
      {
        if parts[i].id == partId {
          AmendsTheFirstPart(parts, i, partId, quantity);
          parts := parts[i := parts[i].(quantity := quantity)];
          return true;
        }
        i := i + 1;
      }
      ok := false;
    }

    method DeletePart(partId: Id) returns (ok: bool)
      modifies this
      ensures ok <==> Enabled(Op.DeletePart(partId), old(View()))
      ensures View() == Apply(Op.DeletePart(partId), old(View()))
    {
      if status !in MUTABLE {
        return false;
      }
      var remaining := WithoutPart(parts, partId);
      if |remaining| == |parts| {
        return false;
      }
      parts := remaining;
      ok := true;
    }

    method LinkSapOrder(number: string)
      modifies this
      ensures View() == Apply(Op.LinkSapOrder(number), old(View()))
    {
      sapNumber := Some(number);
    }
  }
}
