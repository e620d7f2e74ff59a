/** Saving and loading repair orders: one header row and two child tables. */
module RepairOrderStore {
  import opened Common
  import opened RepairOrders

  /** Text columns are never null; a technician is stored in two nullable columns. */
  datatype Header = Header(
    vehicleId: Id, faultId: Id, status: Status, initiatorId: Id, createdAt: Time,
    technicianId: Option<Id>, assignedAt: Option<Time>, sapNumber: string, workshopType: Option<WorkshopType>,
    workshopId: string, rejectionReason: string, approvalNote: string, decisionNote: string,
    completedAt: Option<Time>, isDeleted: bool)

  datatype ActivityRow = ActivityRow(description: string, hours: Hours, performedBy: Id, performedAt: Time, notes: string)
  datatype PartRow = PartRow(quantity: PartQuantity, goodsIssue: Option<Id>, postedAt: Option<Time>)

  /** Child rows are keyed by order and child: the pair is unique. Rows have no order. */
  datatype Tables = Tables(headers: map<Id, Header>, activities: map<(Id, Id), ActivityRow>, parts: map<(Id, Id), PartRow>)

  function ToActivityRow(a: Activity): ActivityRow {
    ActivityRow(a.description, a.hours, a.performedBy, a.performedAt, OrEmpty(a.notes))
  }

  function ToActivity(id: Id, row: ActivityRow): Activity {
    Activity(id, row.description, row.hours, row.performedBy, row.performedAt, OrNone(row.notes))
  }

  function ToPartRow(p: Part): PartRow {
    PartRow(p.quantity, p.goodsIssue, p.postedAt)
  }

  function ToPart(id: Id, row: PartRow): Part {
    Part(id, row.quantity, row.goodsIssue, row.postedAt)
  }

  predicate DistinctActivities(s: seq<Activity>) {
    forall i, j :: 0 <= i < j < |s| ==> s[i].id != s[j].id
  }

  predicate DistinctParts(s: seq<Part>) {
    forall i, j :: 0 <= i < j < |s| ==> s[i].id != s[j].id
  }

  /** The unique constraints on the child tables accept the order's lists. */
  predicate Storable(o: Order) {
    DistinctActivities(o.activities) && DistinctParts(o.parts)
  }

  function ToHeader(o: Order, createdAt: Time, isDeleted: bool): Header {
    Header(o.vehicleId, o.faultId, o.status, o.createdBy, createdAt,
           if o.assignment.Some? then Some(o.assignment.value.technicianId) else None,
           if o.assignment.Some? then Some(o.assignment.value.assignedAt) else None,
           OrEmpty(o.sapNumber), o.workshopType, OrEmpty(o.workshopId), OrEmpty(o.rejectionReason),
           OrEmpty(o.approvalNote), OrEmpty(o.decisionNote), o.completedAt, isDeleted)
  }

  function FromHeader(id: Id, h: Header, activities: seq<Activity>, parts: seq<Part>): Order {
    Order(id, h.vehicleId, h.faultId, h.status, h.initiatorId, h.createdAt,
          if h.technicianId.Some? && h.assignedAt.Some? then Some(Assignment(h.technicianId.value, h.assignedAt.value)) else None,
          activities, parts, OrNone(h.sapNumber), h.workshopType, OrNone(h.workshopId), OrNone(h.rejectionReason),
          OrNone(h.approvalNote), OrNone(h.decisionNote), h.completedAt)
  }

  function ActivityRows(id: Id, s: seq<Activity>): map<(Id, Id), ActivityRow>
    requires DistinctActivities(s)
  {
    map i | 0 <= i < |s| :: (id, s[i].id) := ToActivityRow(s[i])
  }

  function PartRows(id: Id, s: seq<Part>): map<(Id, Id), PartRow>
    requires DistinctParts(s)
  {
    map i | 0 <= i < |s| :: (id, s[i].id) := ToPartRow(s[i])
  }

  function ReplacedActivities(rows: map<(Id, Id), ActivityRow>, id: Id, s: seq<Activity>): map<(Id, Id), ActivityRow>
    requires DistinctActivities(s)
  {
    (map k | k in rows && k.0 != id :: rows[k]) + ActivityRows(id, s)
  }

  function ReplacedParts(rows: map<(Id, Id), PartRow>, id: Id, s: seq<Part>): map<(Id, Id), PartRow>
    requires DistinctParts(s)
  {
    (map k | k in rows && k.0 != id :: rows[k]) + PartRows(id, s)
  }

  /** The header is updated in place, or created; the children of the order are replaced. */
  function Saved(db: Tables, o: Order): Tables
    requires Storable(o)
  {
    var h := if o.id in db.headers then ToHeader(o, db.headers[o.id].createdAt, db.headers[o.id].isDeleted)
             else ToHeader(o, o.createdAt, false);
    Tables(db.headers[o.id := h],
           ReplacedActivities(db.activities, o.id, o.activities), ReplacedParts(db.parts, o.id, o.parts))
  }

  /** The list holds exactly the stored activities of the order, in some order. */
  ghost predicate ListsActivities(rows: map<(Id, Id), ActivityRow>, id: Id, s: seq<Activity>) {
    && DistinctActivities(s)
    && (forall a :: a in s ==> (id, a.id) in rows && a == ToActivity(a.id, rows[(id, a.id)]))
    && (forall k :: k in rows && k.0 == id ==> ToActivity(k.1, rows[k]) in s)
  }

  ghost predicate ListsParts(rows: map<(Id, Id), PartRow>, id: Id, s: seq<Part>) {
    && DistinctParts(s)
    && (forall p :: p in s ==> (id, p.id) in rows && p == ToPart(p.id, rows[(id, p.id)]))
    && (forall k :: k in rows && k.0 == id ==> ToPart(k.1, rows[k]) in s)
  }

  /** `r` is a possible result of loading order `id`: its lists hold the stored rows in some order. */
  ghost predicate IsLoad(db: Tables, id: Id, r: Order) {
    && id in db.headers && !db.headers[id].isDeleted
    && r == FromHeader(id, db.headers[id], r.activities, r.parts)
    && ListsActivities(db.activities, id, r.activities)
    && ListsParts(db.parts, id, r.parts)
  }

  class RepairOrderRepository {
    var db: Tables

    constructor ()
      ensures db == Tables(map[], map[], map[])
    {
      db := Tables(map[], map[], map[]);
    }

    /** Writes the three tables in one database transaction: all of them, or none. */
    method Save(order: RepairOrder) returns (ok: bool)
      modifies this
      ensures ok <==> Storable(order.View())
      ensures db == Perform(old(db), DoSave(order.View()))
    {
      var before := db;
      var o := order.View();
      var h := if o.id in db.headers then ToHeader(o, db.headers[o.id].createdAt, db.headers[o.id].isDeleted)
               else ToHeader(o, o.createdAt, false);
      db := db.(headers := db.headers[o.id := h]);
      db := db.(activities := map k | k in db.activities && k.0 != o.id :: db.activities[k]);
      if !DistinctActivities(o.activities) {
        db := before;
        return false;
      }
      db := db.(activities := db.activities + ActivityRows(o.id, o.activities));
      db := db.(parts := map k | k in db.parts && k.0 != o.id :: db.parts[k]);
      if !DistinctParts(o.parts) {
        db := before;
        return false;
      }
      db := db.(parts := db.parts + PartRows(o.id, o.parts));
      ok := true;
    }

    method GetById(id: Id) returns (found: Option<RepairOrder>)
      ensures found.Some? <==> id in db.headers && !db.headers[id].isDeleted
      ensures found.Some? ==> fresh(found.value) && IsLoad(db, id, found.value.View())
    {
      if id !in db.headers || db.headers[id].isDeleted {
        return None;
      }
      var activities := FetchActivities(id);
      var parts := FetchParts(id);
      var o := new RepairOrder(FromHeader(id, db.headers[id], activities, parts));
      found := Some(o);
    }

    method FetchActivities(id: Id) returns (s: seq<Activity>)
      ensures ListsActivities(db.activities, id, s)
    {
      s := [];
      var left := set k | k in db.activities && k.0 == id;
      while left != {}
        invariant forall k :: k in left ==> k in db.activities && k.0 == id
        invariant DistinctActivities(s) && forall a :: a in s ==> (id, a.id) !in left
        invariant forall a :: a in s ==> (id, a.id) in db.activities && a == ToActivity(a.id, db.activities[(id, a.id)])
        invariant forall k :: k in db.activities && k.0 == id && k !in left ==> ToActivity(k.1, db.activities[k]) in s
        decreases left
      {
        var k :| k in left;
        left := left - {k};
        s := s + [ToActivity(k.1, db.activities[k])];
      }
    }

    method FetchParts(id: Id) returns (s: seq<Part>)
      ensures ListsParts(db.parts, id, s)
    {
      s := [];
      var left := set k | k in db.parts && k.0 == id;
      while left != {}
        invariant forall k :: k in left ==> k in db.parts && k.0 == id
        invariant DistinctParts(s) && forall p :: p in s ==> (id, p.id) !in left
        invariant forall p :: p in s ==> (id, p.id) in db.parts && p == ToPart(p.id, db.parts[(id, p.id)])
        invariant forall k :: k in db.parts && k.0 == id && k !in left ==> ToPart(k.1, db.parts[k]) in s
        decreases left
      {
        var k :| k in left;
        left := left - {k};
        s := s + [ToPart(k.1, db.parts[k])];
      }
    }

    method Delete(id: Id) returns (ok: bool)
      modifies this
      ensures ok <==> id in old(db).headers && !old(db).headers[id].isDeleted
      ensures db == Perform(old(db), DoDelete(id))
    {
      ok := id in db.headers && !db.headers[id].isDeleted;
      if ok {
        db := Deleted(db, id);
      }
    }
  }

  function Deleted(db: Tables, id: Id): Tables
    requires id in db.headers
  {
    db.(headers := db.headers[id := db.headers[id].(isDeleted := true)])
  }

  datatype Write = DoSave(order: Order) | DoDelete(id: Id)

  function OrderOf(w: Write): Id {
    match w
    case DoSave(o) => o.id
    case DoDelete(id) => id
  }

  function Perform(db: Tables, w: Write): Tables {
    match w
    case DoSave(o) => if Storable(o) then Saved(db, o) else db
    case DoDelete(id) => if id in db.headers && !db.headers[id].isDeleted then Deleted(db, id) else db
  }

  function PerformAll(db: Tables, ws: seq<Write>): Tables {
    if ws == [] then db else Perform(PerformAll(db, ws[..|ws| - 1]), ws[|ws| - 1])
  }

  /** The header and the child rows of one order are the same in both databases. */
  ghost predicate SameFor(a: Tables, b: Tables, id: Id) {
    && (id in a.headers <==> id in b.headers) && (id in a.headers ==> a.headers[id] == b.headers[id])
    && (forall c :: (id, c) in a.activities <==> (id, c) in b.activities)
    && (forall c :: (id, c) in a.activities ==> a.activities[(id, c)] == b.activities[(id, c)])
    && (forall c :: (id, c) in a.parts <==> (id, c) in b.parts)
    && (forall c :: (id, c) in a.parts ==> a.parts[(id, c)] == b.parts[(id, c)])
  }

  lemma {:induction false} OtherOrdersUntouched(db: Tables, ws: seq<Write>, id: Id)
    requires forall w :: w in ws ==> OrderOf(w) != id
    ensures SameFor(PerformAll(db, ws), db, id)
  {
    if ws != [] {
      OtherOrdersUntouched(db, ws[..|ws| - 1], id);
      assert ws[|ws| - 1] in ws;
      assert SameFor(Perform(PerformAll(db, ws[..|ws| - 1]), ws[|ws| - 1]), PerformAll(db, ws[..|ws| - 1]), id);
    }
  }

  /** What a text column keeps of an order: empty texts come back as nothing. */
  function Normal(o: Order, createdAt: Time): Order {
    o.(createdAt := createdAt, sapNumber := Stored(o.sapNumber), workshopId := Stored(o.workshopId),
       rejectionReason := Stored(o.rejectionReason), approvalNote := Stored(o.approvalNote),
       decisionNote := Stored(o.decisionNote), activities := NormalActivities(o.activities))
  }

  function NormalActivities(s: seq<Activity>): (r: seq<Activity>)
    ensures |r| == |s| && forall i :: 0 <= i < |s| ==> r[i] == s[i].(notes := Stored(s[i].notes))
  {
    seq(|s|, i requires 0 <= i < |s| => s[i].(notes := Stored(s[i].notes)))
  }

  /** The same order, with its lists in any order. */
  ghost predicate SameUpToListOrder(a: Order, b: Order) {
    && a == b.(activities := a.activities, parts := a.parts)
    && multiset(a.activities) == multiset(b.activities)
    && multiset(a.parts) == multiset(b.parts)
  }

  predicate NoRepeats<T(==)>(s: seq<T>) {
    forall i, j :: 0 <= i < j < |s| ==> s[i] != s[j]
  }

  lemma {:induction false} CountedOnce<T>(s: seq<T>, x: T)
    requires NoRepeats(s)
    ensures multiset(s)[x] == if x in s then 1 else 0
  {
    if s != [] {
      CountedOnce(s[1..], x);
      assert s == [s[0]] + s[1..];
    }
  }

  lemma SameElements<T>(a: seq<T>, b: seq<T>)
    requires NoRepeats(a) && NoRepeats(b)
    requires forall x :: x in a <==> x in b
    ensures multiset(a) == multiset(b)
  {
    forall x: T ensures multiset(a)[x] == multiset(b)[x] {
      CountedOnce(a, x);
      CountedOnce(b, x);
    }
  }

  lemma ActivityIsStored(rows: map<(Id, Id), ActivityRow>, id: Id, s: seq<Activity>, i: nat)
    requires DistinctActivities(s) && i < |s|
    ensures (id, s[i].id) in ReplacedActivities(rows, id, s)
    ensures ReplacedActivities(rows, id, s)[(id, s[i].id)] == ToActivityRow(s[i])
  {
    assert (id, s[i].id) in ActivityRows(id, s);
  }

  lemma PartIsStored(rows: map<(Id, Id), PartRow>, id: Id, s: seq<Part>, i: nat)
    requires DistinctParts(s) && i < |s|
    ensures (id, s[i].id) in ReplacedParts(rows, id, s)
    ensures ReplacedParts(rows, id, s)[(id, s[i].id)] == ToPartRow(s[i])
  {
    assert (id, s[i].id) in PartRows(id, s);
  }

  lemma LoadedActivities(rows: map<(Id, Id), ActivityRow>, id: Id, s: seq<Activity>, r: seq<Activity>)
    requires DistinctActivities(s) && ListsActivities(ReplacedActivities(rows, id, s), id, r)
    ensures multiset(r) == multiset(NormalActivities(s))
  {
    var n := NormalActivities(s);
    forall x | x in r ensures x in n {
      var i :| 0 <= i < |s| && s[i].id == x.id;
      ActivityIsStored(rows, id, s, i);
      assert n[i] == x;
    }
    forall x | x in n ensures x in r {
      var i :| 0 <= i < |n| && n[i] == x;
      ActivityIsStored(rows, id, s, i);
      assert ToActivity(s[i].id, ToActivityRow(s[i])) == x;
    }
    SameElements(r, n);
  }

  lemma LoadedParts(rows: map<(Id, Id), PartRow>, id: Id, s: seq<Part>, r: seq<Part>)
    requires DistinctParts(s) && ListsParts(ReplacedParts(rows, id, s), id, r)
    ensures multiset(r) == multiset(s)
  {
    forall x | x in r ensures x in s {
      var i :| 0 <= i < |s| && s[i].id == x.id;
      PartIsStored(rows, id, s, i);
      assert s[i] == x;
    }
    forall x | x in s ensures x in r {
      var i :| 0 <= i < |s| && s[i] == x;
      PartIsStored(rows, id, s, i);
      assert ToPart(x.id, ToPartRow(x)) == x;
    }
    SameElements(r, s);
  }

  lemma SavedIsLoaded(db: Tables, o: Order, r: Order)
    requires Storable(o) && IsLoad(Saved(db, o), o.id, r)
    ensures SameUpToListOrder(r, Normal(o, if o.id in db.headers then db.headers[o.id].createdAt else o.createdAt))
  {
    hide ReplacedActivities, ReplacedParts, ListsActivities, ListsParts;
    LoadedActivities(db.activities, o.id, o.activities, r.activities);
    LoadedParts(db.parts, o.id, o.parts, r.parts);
  }

  lemma SameLoads(a: Tables, b: Tables, id: Id, r: Order)
    requires SameFor(a, b, id) && IsLoad(a, id, r)
    ensures IsLoad(b, id, r)
  {
    forall k | k in b.activities && k.0 == id ensures ToActivity(k.1, b.activities[k]) in r.activities {
      assert (id, k.1) in a.activities;
    }
    forall k | k in b.parts && k.0 == id ensures ToPart(k.1, b.parts[k]) in r.parts {
      assert (id, k.1) in a.parts;
    }
  }

  /** Every column of a saved header holds the field it is named after. */
  lemma ColumnsOfSaved(db: Tables, o: Order)
    requires Storable(o)
    ensures o.id in Saved(db, o).headers
    ensures var h := Saved(db, o).headers[o.id];
            && h.vehicleId == o.vehicleId && h.faultId == o.faultId && h.status == o.status && h.initiatorId == o.createdBy
            && (o.assignment == None ==> h.technicianId == None && h.assignedAt == None)
            && (o.assignment != None ==> h.technicianId == Some(o.assignment.value.technicianId)
                                         && h.assignedAt == Some(o.assignment.value.assignedAt))
            && OrNone(h.sapNumber) == Stored(o.sapNumber) && OrNone(h.workshopId) == Stored(o.workshopId)
            && h.workshopType == o.workshopType && h.completedAt == o.completedAt
            && OrNone(h.rejectionReason) == Stored(o.rejectionReason)
            && OrNone(h.approvalNote) == Stored(o.approvalNote) && OrNone(h.decisionNote) == Stored(o.decisionNote)
            && h.createdAt == (if o.id in db.headers then db.headers[o.id].createdAt else o.createdAt)
            && h.isDeleted == (o.id in db.headers && db.headers[o.id].isDeleted)
  {
  }

  /** Whatever was written before, and whatever is written to other orders after, loading an order
      returns what was last saved, up to empty texts and list order; its creation time is the first one
      stored. Nothing is loaded exactly when the order was soft-deleted before. */
  lemma LastSaveIsLoaded(db: Tables, before: seq<Write>, o: Order, after: seq<Write>, r: Order)
    requires Storable(o) && forall w :: w in after ==> OrderOf(w) != o.id
    ensures var prior, now := PerformAll(db, before), PerformAll(PerformAll(db, before + [DoSave(o)]), after);
            var known := o.id in prior.headers;
            && o.id in now.headers
            && (now.headers[o.id].isDeleted <==> known && prior.headers[o.id].isDeleted)
            && (IsLoad(now, o.id, r) ==>
                  SameUpToListOrder(r, Normal(o, if known then prior.headers[o.id].createdAt else o.createdAt)))
  {
    hide IsLoad, ReplacedActivities, ReplacedParts, SameUpToListOrder;
    var prior, ws := PerformAll(db, before), before + [DoSave(o)];
    assert ws[..|ws| - 1] == before;
    assert PerformAll(db, ws) == Saved(prior, o);
    var now := PerformAll(Saved(prior, o), after);
    OtherOrdersUntouched(Saved(prior, o), after, o.id);
    if IsLoad(now, o.id, r) {
      SameLoads(now, Saved(prior, o), o.id, r);
      SavedIsLoaded(prior, o, r);
    }
  }

  lemma {:induction false} LaborWithout(s: seq<Activity>, i: nat)
    requires i < |s|
    ensures TotalLabor(s) == s[i].hours + TotalLabor(s[..i] + s[i + 1..])
  {
    if i == 0 {
      assert s[..0] + s[1..] == s[1..];
    } else {
      LaborWithout(s[1..], i - 1);
      assert (s[..i] + s[i + 1..])[1..] == s[1..][..i - 1] + s[1..][i..];
    }
  }

  /** The labor total does not depend on the order in which the activities are loaded. */
  lemma {:induction false} LaborIgnoresOrder(a: seq<Activity>, b: seq<Activity>)
    requires multiset(a) == multiset(b)
    ensures TotalLabor(a) == TotalLabor(b)
    decreases |a|
  {
    hide TotalLabor;
    assert |a| == |multiset(a)| && |b| == |multiset(b)|;
    if a == [] {
      assert b == [];
    } else {
      var i := IndexOf(a[0], b);
      MultisetWithout(b, i);
      MultisetWithout(a, 0);
      LaborWithout(a, 0);
      LaborWithout(b, i);
      LaborIgnoresOrder(a[..0] + a[1..], b[..i] + b[i + 1..]);
    }
  }

  lemma IndexOf<T>(x: T, s: seq<T>) returns (i: nat)
    requires x in multiset(s)
    ensures i < |s| && s[i] == x
  {
    i :| i < |s| && s[i] == x;
  }

  lemma MultisetWithout<T>(s: seq<T>, i: nat)
    requires i < |s|
    ensures multiset(s[..i] + s[i + 1..]) == multiset(s) - multiset{s[i]}
  {
    assert s == s[..i] + [s[i]] + s[i + 1..];
  }

  lemma {:induction false} NormalKeepsLabor(s: seq<Activity>)
    ensures TotalLabor(NormalActivities(s)) == TotalLabor(s)
  {
    if s != [] {
      NormalKeepsLabor(s[1..]);
      assert NormalActivities(s)[1..] == NormalActivities(s[1..]);
    }
  }

  /** The labor total survives saving and loading. */
  lemma LaborSurvives(db: Tables, o: Order, r: Order)
    requires Storable(o) && IsLoad(Saved(db, o), o.id, r)
    ensures TotalLabor(r.activities) == TotalLabor(o.activities)
  {
    hide IsLoad, ReplacedActivities, ReplacedParts;
    SavedIsLoaded(db, o, r);
    LaborIgnoresOrder(r.activities, NormalActivities(o.activities));
    NormalKeepsLabor(o.activities);
  }
}
