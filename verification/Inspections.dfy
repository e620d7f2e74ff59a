/** Vehicle inspections: the checklist, its review, and the score worked out from it. */
module Inspections {
  import opened Common

  type Id = string

  datatype Status = Draft | Submitted | Approved | Rejected
  datatype ChecklistResult = Pass | Fail | NotApplicable

  datatype Item = Item(id: Id, category: string, description: string, result: ChecklistResult, notes: Option<string>) {
    predicate Passed() { result == Pass }
    predicate Applies() { result != NotApplicable }
  }

  function Allowed(s: Status): set<Status> {
    match s
    case Draft => {Submitted}
    case Submitted => {Approved, Rejected}
    case Rejected => {Draft}
    case Approved => {}
  }

  datatype Error = AlreadySubmitted | ItemRequired | InvalidTransition

  datatype Sheet = Sheet(status: Status, items: seq<Item>, reviewer: Option<Id>, notes: Option<string>)

  const BLANK := Sheet(Draft, [], None, None)

  datatype Op =
    | AddItem(item: Item)
    | Submit
    | Approve(reviewer: Id, notes: Option<string>)
    | Reject(reviewer: Id, notes: Option<string>)
    | Reopen

  /** The error an operation raises, if it raises one. A missing checklist is noticed before the status. */
  function Raises(op: Op, s: Sheet): Option<Error> {
    match op
    case AddItem(_) => if s.status == Draft then None else Some(AlreadySubmitted)
    case Submit =>
      if s.items == [] then Some(ItemRequired) else if s.status == Draft then None else Some(InvalidTransition)
    case Approve(_, _) => if s.status == Submitted then None else Some(InvalidTransition)
    case Reject(_, _) => if s.status == Submitted then None else Some(InvalidTransition)
    case Reopen => if s.status == Rejected then None else Some(InvalidTransition)
  }

  function Apply(op: Op, s: Sheet): Sheet {
    if Raises(op, s).Some? then s else
    match op
    case AddItem(item) => s.(items := s.items + [item])
    case Submit => s.(status := Submitted)
    case Approve(who, notes) => s.(status := Approved, reviewer := Some(who), notes := notes)
    case Reject(who, notes) => s.(status := Rejected, reviewer := Some(who), notes := notes)
    case Reopen => s.(status := Draft, reviewer := None, notes := None)
  }

  function Run(ops: seq<Op>, s: Sheet): Sheet {
    if ops == [] then s else Apply(ops[|ops| - 1], Run(ops[..|ops| - 1], s))
  }

  class Inspection {
    const id: Id
    const vehicleId: Id
    var status: Status
    var items: seq<Item>
    var reviewedById: Option<Id>
    var reviewNotes: Option<string>

    function View(): Sheet
      reads this
    {
      Sheet(status, items, reviewedById, reviewNotes)
    }

    constructor (id: Id, vehicleId: Id)
      ensures View() == BLANK
      ensures this.id == id && this.vehicleId == vehicleId
    {
      this.id, this.vehicleId := id, vehicleId;
      status, items, reviewedById, reviewNotes := Draft, [], None, None;
    }

    method TransitionTo(target: Status) returns (error: Option<Error>)
      modifies this`status
      ensures error == if target in Allowed(old(status)) then None else Some(InvalidTransition)
      ensures status == if error.None? then target else old(status)
    {
      if target !in Allowed(status) {
        return Some(InvalidTransition);
      }
      status := target;
      error := None;
    }

    method AddItem(item: Item) returns (error: Option<Error>)
      modifies this
      ensures error == Raises(Op.AddItem(item), old(View()))
      ensures View() == Apply(Op.AddItem(item), old(View()))
    {
      if status != Draft {
        return Some(AlreadySubmitted);
      }
      items := items + [item];
      error := None;
    }

    method Submit() returns (error: Option<Error>)
      modifies this
      ensures error == Raises(Op.Submit, old(View()))
      ensures View() == Apply(Op.Submit, old(View()))
    {
      if items == [] {
        return Some(ItemRequired);
      }
      error := TransitionTo(Submitted);
    }

    method Approve(who: Id, notes: Option<string>) returns (error: Option<Error>)
      modifies this
      ensures error == Raises(Op.Approve(who, notes), old(View()))
      ensures View() == Apply(Op.Approve(who, notes), old(View()))
    {
      error := TransitionTo(Approved);
      if error.None? {
        reviewedById, reviewNotes := Some(who), notes;
      }
    }

    method Reject(who: Id, notes: Option<string>) returns (error: Option<Error>)
      modifies this
      ensures error == Raises(Op.Reject(who, notes), old(View()))
      ensures View() == Apply(Op.Reject(who, notes), old(View()))
    {
      error := TransitionTo(Rejected);
      if error.None? {
        reviewedById, reviewNotes := Some(who), notes;
      }
    }

    method Reopen() returns (error: Option<Error>)
      modifies this
      ensures error == Raises(Op.Reopen, old(View()))
      ensures View() == Apply(Op.Reopen, old(View()))
    {
      error := TransitionTo(Draft);
      if error.None? {
        reviewedById, reviewNotes := None, None;
      }
    }
  }

  /** A review needs a checklist, and a reviewer is on record exactly while a decision stands. */
  lemma {:induction false} RunIsConsistent(ops: seq<Op>)
    ensures var s := Run(ops, BLANK);
            && (s.status != Draft ==> s.items != [])
            && (s.reviewer.Some? <==> s.status in {Approved, Rejected})
            && (s.status in {Draft, Submitted} ==> s.notes.None?)
  {
    if ops != [] {
      RunIsConsistent(ops[..|ops| - 1]);
    }
  }

  /** The newest successful operation that moved the sheet on, if any. */
  function LastMove(ops: seq<Op>): Option<Op> {
    if ops == [] then None else
    var last := |ops| - 1;
    if !ops[last].AddItem? && Raises(ops[last], Run(ops[..last], BLANK)) == None then Some(ops[last]) else LastMove(ops[..last])
  }

  /** The items of the additions that succeeded, oldest first. */
  function AddedItems(ops: seq<Op>): seq<Item> {
    if ops == [] then [] else
    var last := |ops| - 1;
    AddedItems(ops[..last])
    + if ops[last].AddItem? && Raises(ops[last], Run(ops[..last], BLANK)) == None then [ops[last].item] else []
  }

  /** In every run the checklist is what was added to it, and a decision on record is the newest one, with
      its reviewer and notes. */
  lemma {:induction false} SheetHasASource(ops: seq<Op>)
    ensures var s := Run(ops, BLANK);
            && s.items == AddedItems(ops)
            && (s.status == Approved <==> LastMove(ops).Some? && LastMove(ops).value.Approve?)
            && (s.status == Rejected <==> LastMove(ops).Some? && LastMove(ops).value.Reject?)
            && (s.status == Submitted <==> LastMove(ops) == Some(Op.Submit))
            && (s.status in {Approved, Rejected} ==>
                  s.reviewer == Some(LastMove(ops).value.reviewer) && s.notes == LastMove(ops).value.notes)
  {
    if ops != [] {
      SheetHasASource(ops[..|ops| - 1]);
    }
  }

  /** A whole life: submitted, rejected, reopened, completed, submitted again and approved. */
  lemma RejectedThenApproved(first: Item, more: Item, a: Id, why: Option<string>, b: Id, notes: Option<string>)
    ensures Run([AddItem(first), Submit, Reject(a, why)], BLANK) == Sheet(Rejected, [first], Some(a), why)
    ensures Run([AddItem(first), Submit, Reject(a, why), Reopen, AddItem(more), Submit, Approve(b, notes)], BLANK)
         == Sheet(Approved, [first, more], Some(b), notes)
  {
    var ops := [AddItem(first), Submit, Reject(a, why), Reopen, AddItem(more), Submit, Approve(b, notes)];
    assert Run(ops[..0], BLANK) == BLANK;
    var s1 := RunOne(ops[..0], AddItem(first));
    assert ops[..1] == ops[..0] + [AddItem(first)];
    var s2 := RunOne(ops[..1], Op.Submit);
    assert ops[..2] == ops[..1] + [Op.Submit];
    var s3 := RunOne(ops[..2], Op.Reject(a, why));
    assert ops[..3] == ops[..2] + [Op.Reject(a, why)] == [AddItem(first), Op.Submit, Op.Reject(a, why)];
    var s4 := RunOne(ops[..3], Op.Reopen);
    assert ops[..4] == ops[..3] + [Op.Reopen];
    var s5 := RunOne(ops[..4], AddItem(more));
    assert ops[..5] == ops[..4] + [AddItem(more)];
    var s6 := RunOne(ops[..5], Op.Submit);
    assert ops[..6] == ops[..5] + [Op.Submit];
    var s7 := RunOne(ops[..6], Op.Approve(b, notes));
    assert ops[..7] == ops[..6] + [Op.Approve(b, notes)] == ops;
  }

  lemma RunOne(ops: seq<Op>, op: Op) returns (after: Sheet)
    ensures after == Apply(op, Run(ops, BLANK)) == Run(ops + [op], BLANK)
  {
    after := Apply(op, Run(ops, BLANK));
    assert (ops + [op])[..|ops|] == ops;
  }

  /** Items are never lost or altered, and an approved sheet never changes again, whatever is tried on it. */
  lemma {:induction false} ItemsOnlyGrow(ops: seq<Op>, s: Sheet)
    ensures s.items <= Run(ops, s).items
    ensures s.status == Approved ==> Run(ops, s) == s
  {
    if ops != [] {
      ItemsOnlyGrow(ops[..|ops| - 1], s);
    }
  }

  /** While nobody reopens it, a sheet that has left Draft keeps its checklist, and with it its score. */
  lemma {:induction false} ChecklistIsFrozenUntilReopened(ops: seq<Op>, s: Sheet)
    requires s.status != Draft && forall i :: 0 <= i < |ops| ==> ops[i] != Op.Reopen
    ensures Run(ops, s).items == s.items && Run(ops, s).status != Draft
    ensures Score(Run(ops, s).items) == Score(s.items)
  {
    if ops != [] {
      ChecklistIsFrozenUntilReopened(ops[..|ops| - 1], s);
    }
  }

  function Applicable(items: seq<Item>): (r: seq<Item>)
    ensures |r| <= |items| && forall i :: 0 <= i < |r| ==> r[i].Applies()
  {
    if items == [] then []
    else (if items[0].Applies() then [items[0]] else []) + Applicable(items[1..])
  }

  function FailedItems(items: seq<Item>): (r: seq<Item>)
    ensures forall item :: item in r <==> item in items && item.result == Fail
  {
    if items == [] then []
    else (if items[0].result == Fail then [items[0]] else []) + FailedItems(items[1..])
  }

  predicate HasFailures(items: seq<Item>) {
    exists i :: 0 <= i < |items| && items[i].result == Fail
  }

  function Passes(items: seq<Item>): (n: nat)
    ensures n <= |items|
  {
    if items == [] then 0 else (if items[0].Passed() then 1 else 0) + Passes(items[1..])
  }

  /** The nearest whole number to `n / d`, a tie going to the even neighbour. */
  function RoundHalfEven(n: nat, d: nat): nat
    requires d > 0
  {
    var q, r := n / d, n % d;
    if 2 * r < d || (2 * r == d && q % 2 == 0) then q else q + 1
  }

  datatype Scoring = NoTotal | OutOfRange | Scored(hundredths: nat)

  /** A percentage to two places, counted in hundredths of a percent. */
  function Compute(passed: nat, total: nat): Scoring {
    if total == 0 then NoTotal else
    var v := RoundHalfEven(10000 * passed, total);
    if v <= 10000 then Scored(v) else OutOfRange
  }

  function Score(items: seq<Item>): Option<Scoring> {
    var applicable := Applicable(items);
    if applicable == [] then None else Some(Compute(Passes(applicable), |applicable|))
  }

  /** `r` is within half a unit of `n / d`, and even when it is exactly half a unit away. */
  predicate IsNearest(r: int, n: nat, d: nat) {
    && 2 * n - d <= 2 * (r * d) <= 2 * n + d
    && (2 * (r * d) == 2 * n - d || 2 * (r * d) == 2 * n + d ==> r % 2 == 0)
  }

  lemma RoundsToNearest(n: nat, d: nat)
    requires d > 0
    ensures IsNearest(RoundHalfEven(n, d), n, d)
  {
    var q, r := n / d, n % d;
    assert n == q * d + r;
    assert (q + 1) * d == q * d + d;
  }

  lemma {:induction false} Scaled(a: int, b: int, c: nat)
    requires a <= b && c > 0
    ensures a * c <= b * c
    ensures a * c == b * c ==> a == b
  {
    if c > 1 {
      Scaled(a, b, c - 1);
      assert a * c == a * (c - 1) + a && b * c == b * (c - 1) + b;
    }
  }

  lemma ScaledBoth(x: int, y: int, d1: nat, d2: nat)
    requires x >= y && d1 > 0 && d2 > 0
    ensures x * d1 * d2 >= y * d2 * d1
    ensures x * d1 * d2 == y * d2 * d1 ==> x == y
  {
    assert x * d1 * d2 == x * (d1 * d2) && y * d2 * d1 == y * (d1 * d2);
    Scaled(y, x, d1 * d2);
  }

  /** `a <= m1` and `m2 <= b`, when `m1 / d1 <= m2 / d2` and yet `a / d1 >= b / d2`. */
  lemma Squeezed(a: int, m1: int, m2: int, b: int, d1: nat, d2: nat)
    requires d1 > 0 && d2 > 0 && a <= m1 && m2 <= b && m1 * d2 <= m2 * d1 && a * d2 >= b * d1
    ensures a == m1 && m2 == b && a * d2 == b * d1
  {
    Scaled(a, m1, d2);
    Scaled(m2, b, d1);
  }

  lemma BoundsMeet(x: int, y: int, n1: nat, d1: nat, n2: nat, d2: nat)
    requires d1 > 0 && d2 > 0 && n1 * d2 <= n2 * d1
    requires x >= y && x * d1 <= 2 * n1 && 2 * n2 <= y * d2
    ensures x == y && x * d1 == 2 * n1 && 2 * n2 == y * d2
  {
    ScaledBoth(x, y, d1, d2);
    assert 2 * n1 * d2 <= 2 * n2 * d1 by {
      assert 2 * n1 * d2 == 2 * (n1 * d2) && 2 * n2 * d1 == 2 * (n2 * d1);
    }
    Squeezed(x * d1, 2 * n1, 2 * n2, y * d2, d1, d2);
  }

  lemma Doubled(r: int, d: nat)
    ensures (2 * r - 1) * d == 2 * (r * d) - d && (2 * r + 1) * d == 2 * (r * d) + d
  {
  }

  /** Two fractions in order, rounded either way at ties, can only come out reversed when both are ties. */
  lemma ReversedOnlyAtTies(r1: int, n1: nat, d1: nat, r2: int, n2: nat, d2: nat)
    requires d1 > 0 && d2 > 0 && n1 * d2 <= n2 * d1
    requires 2 * (r1 * d1) <= 2 * n1 + d1 && 2 * n2 - d2 <= 2 * (r2 * d2)
    ensures r1 > r2 ==> r1 == r2 + 1 && 2 * (r1 * d1) == 2 * n1 + d1 && 2 * (r2 * d2) == 2 * n2 - d2
  {
    Doubled(r1, d1);
    Doubled(r2, d2);
    if r1 > r2 {
      BoundsMeet(2 * r1 - 1, 2 * r2 + 1, n1, d1, n2, d2);
    }
  }

  /** Rounding keeps the order of fractions. */
  lemma NearestIsMonotone(r1: int, n1: nat, d1: nat, r2: int, n2: nat, d2: nat)
    requires d1 > 0 && d2 > 0 && n1 * d2 <= n2 * d1
    requires IsNearest(r1, n1, d1) && IsNearest(r2, n2, d2)
    ensures r1 <= r2
  {
    ReversedOnlyAtTies(r1, n1, d1, r2, n2, d2);
  }

  /** Rounding is determined by being nearest. */
  lemma RoundHalfEvenIsNearest(r: int, n: nat, d: nat)
    requires d > 0
    ensures r == RoundHalfEven(n, d) <==> IsNearest(r, n, d)
  {
    RoundsToNearest(n, d);
    if IsNearest(r, n, d) {
      NearestIsMonotone(r, n, d, RoundHalfEven(n, d), n, d);
      NearestIsMonotone(RoundHalfEven(n, d), n, d, r, n, d);
    }
  }

  lemma WholeIsNearest(n: nat)
    ensures IsNearest(n, n, 1)
  {
  }

  /** A better ratio of passes never scores lower, and a score that can be asked for is always in range. */
  lemma ComputeIsMonotone(p1: nat, t1: nat, p2: nat, t2: nat)
    requires t1 > 0 && t2 > 0 && p1 * t2 <= p2 * t1 && p2 <= t2
    ensures Compute(p1, t1).Scored? && Compute(p2, t2).Scored?
    ensures Compute(p1, t1).hundredths <= Compute(p2, t2).hundredths <= 10000
  {
    hide IsNearest, RoundHalfEven;
    var n1, n2 := 10000 * p1, 10000 * p2;
    RoundsToNearest(n1, t1);
    RoundsToNearest(n2, t2);
    WholeIsNearest(10000);
    assert n1 * t2 == 10000 * (p1 * t2) && n2 * t1 == 10000 * (p2 * t1);
    NearestIsMonotone(RoundHalfEven(n1, t1), n1, t1, RoundHalfEven(n2, t2), n2, t2);
    NearestIsMonotone(RoundHalfEven(n2, t2), n2, t2, 10000, 10000, 1);
  }

  /** Every applicable item passed or failed, and the score asks for nothing else. */
  lemma {:induction false} PassedOrFailed(items: seq<Item>)
    ensures Passes(Applicable(items)) == Passes(items)
    ensures |Applicable(items)| == Passes(items) + |FailedItems(items)|
    ensures HasFailures(items) <==> FailedItems(items) != []
  {
    if items != [] {
      PassedOrFailed(items[1..]);
      var rest := Applicable(items[1..]);
      assert ([items[0]] + rest)[1..] == rest;
      assert items[0].Applies() ==> Applicable(items) == [items[0]] + rest;
      assert !items[0].Applies() ==> Applicable(items) == rest;
      assert HasFailures(items) <==> items[0].result == Fail || HasFailures(items[1..]) by {
        assert forall i :: 0 < i < |items| ==> items[i] == items[1..][i - 1];
      }
    }
  }

  /** Where in the list a result stands. */
  function Positions(items: seq<Item>, result: ChecklistResult): set<nat> {
    set i: nat | i < |items| && items[i].result == result
  }

  /** Passes and failures are counted once for each position. */
  lemma {:induction false} CountsArePositions(items: seq<Item>)
    ensures Passes(items) == |Positions(items, Pass)|
    ensures |FailedItems(items)| == |Positions(items, Fail)|
  {
    if items != [] {
      var last := |items| - 1;
      CountsArePositions(items[..last]);
      assert items == items[..last] + [items[last]];
      hide Passes, FailedItems, Positions;
      CountsOfLonger(items[..last], items[last]);
      PositionsOfLonger(items[..last], items[last], Pass);
      PositionsOfLonger(items[..last], items[last], Fail);
    }
  }

  lemma PositionsOfLonger(items: seq<Item>, item: Item, result: ChecklistResult)
    ensures |Positions(items + [item], result)| == |Positions(items, result)| + if item.result == result then 1 else 0
  {
    assert Positions(items + [item], result) == Positions(items, result) + if item.result == result then {|items|} else {};
  }

  lemma {:induction false} CountsOfLonger(items: seq<Item>, item: Item)
    ensures Passes(items + [item]) == Passes(items) + if item.result == Pass then 1 else 0
    ensures |FailedItems(items + [item])| == |FailedItems(items)| + if item.result == Fail then 1 else 0
  {
    if items == [] {
      assert items + [item] == [item];
    } else {
      assert (items + [item])[1..] == items[1..] + [item];
      CountsOfLonger(items[1..], item);
    }
  }

  /** The score is the percentage of passes among passes and failures, in hundredths, to the nearest one and
      to the even one of two equally near. */
  lemma ScoreIsThePercentage(items: seq<Item>, v: nat)
    ensures var p, f := |Positions(items, Pass)|, |Positions(items, Fail)|;
            if p + f == 0 then Score(items) == None
            else Score(items) == Some(Scored(v)) <==>
                 && 20000 * p - (p + f) <= 2 * (v * (p + f)) <= 20000 * p + (p + f)
                 && (2 * (v * (p + f)) in {20000 * p - (p + f), 20000 * p + (p + f)} ==> v % 2 == 0)
  {
    CountsArePositions(items);
    PassedOrFailed(items);
    ScoreIsInRange(items);
    hide Positions, Passes, FailedItems, Applicable, RoundHalfEven;
    var p, f := |Positions(items, Pass)|, |Positions(items, Fail)|;
    if p + f > 0 {
      RoundHalfEvenIsNearest(v, 10000 * p, p + f);
    }
  }

  /** Reading a score never raises: it is a percentage whenever an item applies, and absent otherwise. */
  lemma ScoreIsInRange(items: seq<Item>)
    ensures Score(items).None? <==> forall i :: 0 <= i < |items| ==> items[i].result == NotApplicable
    ensures Score(items).Some? ==> Score(items).value.Scored? && Score(items).value.hundredths <= 10000
  {
    PassedOrFailed(items);
    NothingApplies(items);
    var p, t := Passes(items), |Applicable(items)|;
    if t > 0 {
      ComputeIsMonotone(p, t, p, t);
    }
  }

  lemma {:induction false} NothingApplies(items: seq<Item>)
    ensures Applicable(items) == [] <==> forall i :: 0 <= i < |items| ==> items[i].result == NotApplicable
  {
    if items != [] {
      NothingApplies(items[1..]);
      assert forall i :: 0 < i < |items| ==> items[i] == items[1..][i - 1];
    }
  }

  /** A full score allows one failure in every 20000 applicable items and no more. */
  lemma FullScore(items: seq<Item>)
    requires Applicable(items) != []
    ensures Score(items) == Some(Scored(10000)) <==> 20000 * |FailedItems(items)| <= |Applicable(items)|
    ensures Score(items) == Some(Scored(0)) <==> 20000 * Passes(items) <= |Applicable(items)|
  {
    PassedOrFailed(items);
    ScoreIsInRange(items);
    var p, t := Passes(items), |Applicable(items)|;
    RoundHalfEvenIsNearest(10000, 10000 * p, t);
    RoundHalfEvenIsNearest(0, 10000 * p, t);
  }

  /** With fewer than 20000 applicable items, one failure is enough to lose the full score. */
  lemma FailuresShow(items: seq<Item>)
    requires 0 < |Applicable(items)| < 20000
    ensures Score(items) == Some(Scored(10000)) <==> !HasFailures(items)
  {
    PassedOrFailed(items);
    FullScore(items);
  }

  lemma {:induction false} CountsAt(items: seq<Item>, k: nat, item: Item)
    requires k < |items|
    ensures Passes(items[k := item])
         == Passes(items) - (if items[k].Passed() then 1 else 0) + (if item.Passed() then 1 else 0)
    ensures |FailedItems(items[k := item])|
         == |FailedItems(items)| - (if items[k].result == Fail then 1 else 0) + (if item.result == Fail then 1 else 0)
  {
    if k == 0 {
      assert items[k := item][1..] == items[1..];
    } else {
      assert items[k := item][1..] == items[1..][k - 1 := item];
      CountsAt(items[1..], k - 1, item);
    }
  }

  lemma ScoreIsRatio(items: seq<Item>)
    ensures var p, f := Passes(items), |FailedItems(items)|;
            Score(items) == if p + f == 0 then None else Some(Compute(p, p + f))
  {
    PassedOrFailed(items);
  }

  /** Turning any one result into a pass never lowers a score there already was. */
  lemma PassingNeverHurts(items: seq<Item>, k: nat)
    requires k < |items| && Applicable(items) != []
    ensures var better := items[k := items[k].(result := Pass)];
            && Score(items).value.Scored? && Score(better).Some? && Score(better).value.Scored?
            && Score(items).value.hundredths <= Score(better).value.hundredths
  {
    PassedOrFailed(items);
    hide Score, Compute, Passes, FailedItems, Applicable;
    var better := items[k := items[k].(result := Pass)];
    CountsAt(items, k, better[k]);
    ScoreIsRatio(items);
    ScoreIsRatio(better);
    var p, f, q, g := Passes(items), |FailedItems(items)|, Passes(better), |FailedItems(better)|;
    RatioGrows(p, f, q, g);
    ComputeIsMonotone(p, p + f, q, q + g);
  }

  lemma RatioGrows(p: nat, f: nat, q: nat, g: nat)
    requires p <= q && g <= f
    ensures p * (q + g) <= q * (p + f)
  {
    assert q * f == p * g + (q - p) * g + q * (f - g);
    assert p * (q + g) == p * q + p * g && q * (p + f) == p * q + q * f;
  }
}
