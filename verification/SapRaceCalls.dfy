/** When interleaved executes of one key keep count of their adapter calls: exactly when no caller loads
    a failed row while another is about to send it again. */
module SapRaceCalls {
  import opened Common
  import opened SapTransactions
  import opened SapGatewaySpec
  import opened SapRace

  /** Every caller would create a PENDING transaction that was never retried. */
  ghost predicate FreshDrafts(draft: nat -> Tx) {
    forall c: nat :: draft(c).status == Pending && draft(c).retryCount == 0
  }

  predicate Resends(k: Caller) {
    k.Resuming? || k.Restarted? || k.AnsweredAgain?
  }

  predicate UnderWay(k: Caller) {
    k.Created? || k.Started? || k.Answered? || Resends(k)
  }

  /** The caller loads a row that it will send again, while another caller is sending it again. */
  ghost predicate Overlaps(r: Race, turn: Turn) {
    && At(r, turn.caller).Idle? && r.row.Some? && r.row.value.CanRetry()
    && exists c :: c in r.callers && Resends(r.callers[c])
  }

  ghost predicate Serialized(draft: nat -> Tx, turns: seq<Turn>) {
    turns == [] ||
    var last := |turns| - 1;
    Serialized(draft, turns[..last]) && !Overlaps(RunRace(draft, turns[..last]), turns[last])
  }

  ghost predicate Quiet(r: Race) {
    forall c :: c in r.callers ==> !UnderWay(r.callers[c])
  }

  function Calls(r: Race): nat {
    |r.creationCalls| + |r.resumeCalls|
  }

  function After(r: Race, draft: nat -> Tx, turn: Turn): Caller {
    At(TakeTurn(r, draft, turn), turn.caller)
  }

  lemma TurnMovesOne(r: Race, draft: nat -> Tx, turn: Turn)
    ensures var after := TakeTurn(r, draft, turn);
            && (forall other :: other in r.callers && other != turn.caller ==>
                  other in after.callers && after.callers[other] == r.callers[other])
            && after.callers.Keys == r.callers.Keys + {turn.caller}
  {
    hide AnswerFrom, Settle, ToResume, ToDomain, ToRow;
    var c, after := turn.caller, TakeTurn(r, draft, turn);
    if At(r, c).Done? {
      assert c in r.callers && after == r;
    } else {
      assert after.callers == r.callers[c := After(r, draft, turn)];
    }
  }

  // ---------------------------------------------------------------- without an overlap

  /** What the one caller under way has done so far, in terms of the row. */
  predicate Progress(k: Caller, row: Tx, calls: nat) {
    match k
    case Created(t) => calls == 0 && t.retryCount == row.retryCount == 0 && row.status == Pending
    case Started(t) => calls == 0 && t.retryCount == row.retryCount == 0 && row.status == InProgress
    case Answered(t, _) => calls == 1 && t.retryCount == row.retryCount == 0 && row.status == InProgress
    case Resuming(t) =>
      && calls == t.retryCount
      && ((t.status == Retrying && row.status == Failed && t.retryCount == row.retryCount + 1)
          || (t.status == InProgress && row.status == Retrying && t.retryCount == row.retryCount))
    case Restarted(t) => calls == t.retryCount == row.retryCount && row.status == InProgress
    case AnsweredAgain(t, _) => calls == t.retryCount + 1 == row.retryCount + 1 && row.status == InProgress
    case _ => false
  }

  ghost predicate OnlyActive(r: Race, active: Option<nat>) {
    forall c: nat :: UnderWay(At(r, c)) <==> active == Some(c)
  }

  predicate Counted(r: Race, active: Option<nat>) {
    match r.row
    case None => active.None? && Calls(r) == 0
    case Some(row) =>
      if active.None? then Calls(r) == row.retryCount + 1 else Progress(At(r, active.value), row, Calls(r))
  }

  /** At most one caller is under way, and the calls follow the row and that caller's progress. */
  ghost predicate OneAtATime(r: Race, active: Option<nat>) {
    OnlyActive(r, active) && Counted(r, active)
  }

  function NextActive(r: Race, draft: nat -> Tx, turn: Turn, active: Option<nat>): Option<nat> {
    if UnderWay(After(r, draft, turn)) then Some(turn.caller) else if active == Some(turn.caller) then None else active
  }

  /** The caller that takes a turn is the active one, or nobody is active, or it does not become active. */
  lemma TurnsAreExclusive(r: Race, draft: nat -> Tx, turn: Turn, active: Option<nat>)
    requires OneAtATime(r, active) && !Overlaps(r, turn)
    ensures active.None? || active == Some(turn.caller) || !UnderWay(After(r, draft, turn))
  {
    hide AnswerFrom;
    if At(r, turn.caller).Idle? && r.row.Some? && r.row.value.CanRetry() {
      assert forall c: nat :: Resends(At(r, c)) ==> c in r.callers;
    }
  }

  lemma TurnKeepsOnlyActive(r: Race, draft: nat -> Tx, turn: Turn, active: Option<nat>)
    requires OnlyActive(r, active)
    requires active.None? || active == Some(turn.caller) || !UnderWay(After(r, draft, turn))
    ensures OnlyActive(TakeTurn(r, draft, turn), NextActive(r, draft, turn, active))
  {
    hide TakeTurn, UnderWay;
    TurnMovesOne(r, draft, turn);
    var after := TakeTurn(r, draft, turn);
    assert forall other: nat :: other != turn.caller ==> At(after, other) == At(r, other);
  }

  lemma TurnKeepsCounted(r: Race, draft: nat -> Tx, turn: Turn, active: Option<nat>)
    requires FreshDrafts(draft) && OneAtATime(r, active)
    requires active.None? || active == Some(turn.caller) || !UnderWay(After(r, draft, turn))
    ensures Counted(TakeTurn(r, draft, turn), NextActive(r, draft, turn, active))
  {
    hide AnswerFrom;
  }

  lemma TurnKeepsOneAtATime(r: Race, draft: nat -> Tx, turn: Turn, active: Option<nat>) returns (next: Option<nat>)
    requires FreshDrafts(draft) && OneAtATime(r, active) && !Overlaps(r, turn)
    ensures OneAtATime(TakeTurn(r, draft, turn), next)
  {
    hide TakeTurn, Overlaps, Counted, OnlyActive, FreshDrafts, After, NextActive;
    next := NextActive(r, draft, turn, active);
    TurnsAreExclusive(r, draft, turn, active);
    TurnKeepsOnlyActive(r, draft, turn, active);
    TurnKeepsCounted(r, draft, turn, active);
  }

  lemma {:induction false} SerializedIsOneAtATime(draft: nat -> Tx, turns: seq<Turn>) returns (active: Option<nat>)
    requires FreshDrafts(draft) && Serialized(draft, turns)
    ensures OneAtATime(RunRace(draft, turns), active)
  {
    if turns == [] {
      active := None;
    } else {
      hide TakeTurn, Overlaps, OneAtATime, FreshDrafts;
      var last := |turns| - 1;
      active := SerializedIsOneAtATime(draft, turns[..last]);
      active := TurnKeepsOneAtATime(RunRace(draft, turns[..last]), draft, turns[last], active);
    }
  }

  // ---------------------------------------------------------------- after an overlap

  predicate Owes(k: Caller) {
    k.Created? || k.Started? || k.Resuming? || k.Restarted?
  }

  function Owed(k: Caller): nat {
    if Owes(k) then 1 else 0
  }

  /** The callers that are still going to call the adapter. */
  function Owing(r: Race): set<nat> {
    set c | c in r.callers && Owes(r.callers[c])
  }

  /** The retry count in the copy that a caller may still save. */
  function Held(k: Caller): Option<nat> {
    match k
    case Created(t) => Some(t.retryCount)
    case Started(t) => Some(t.retryCount)
    case Answered(t, _) => Some(t.retryCount)
    case Resuming(t) => Some(t.retryCount)
    case Restarted(t) => Some(t.retryCount)
    case AnsweredAgain(t, _) => Some(t.retryCount)
    case _ => None
  }

  /** The calls made and owed are ahead of every retry count, stored or held, by two or more. */
  ghost predicate Ahead(r: Race) {
    && r.row.Some? && Calls(r) + |Owing(r)| >= 2 + r.row.value.retryCount
    && forall c :: c in r.callers && Held(r.callers[c]).Some? ==> Calls(r) + |Owing(r)| >= 2 + Held(r.callers[c]).value
  }

  lemma OwingAfter(r: Race, after: Race, c: nat)
    requires after.callers.Keys == r.callers.Keys + {c}
    requires forall other :: other in r.callers && other != c ==> after.callers[other] == r.callers[other]
    ensures |Owing(after)| == |Owing(r)| - Owed(At(r, c)) + Owed(At(after, c))
  {
    hide Owes;
    assert Owing(after) - {c} == Owing(r) - {c};
    assert !Owes(Idle) by {
      IdleHoldsNothing();
    }
    WithAndWithout(Owing(r), c);
    WithAndWithout(Owing(after), c);
    assert c in Owing(r) <==> Owes(At(r, c));
    assert c in Owing(after) <==> Owes(At(after, c));
  }

  lemma WithAndWithout(s: set<nat>, c: nat)
    ensures |s| == |s - {c}| + if c in s then 1 else 0
  {
    if c in s {
      assert s == s - {c} + {c};
    } else {
      assert s == s - {c};
    }
  }

  /** A turn saves the caller's copy or nothing; it takes a new copy only with a new call to make. */
  lemma TurnSavesItsCopy(r: Race, draft: nat -> Tx, turn: Turn)
    requires r.row.Some?
    ensures var k, after := At(r, turn.caller), TakeTurn(r, draft, turn);
            var next := After(r, draft, turn);
            && after.row.Some?
            && (after.row.value.retryCount == r.row.value.retryCount || Held(k) == Some(after.row.value.retryCount))
            && Calls(after) + Owed(next) >= Calls(r) + Owed(k)
            && (Held(next).Some? ==>
                  Held(next) == Held(k)
                  || (Held(next).value == r.row.value.retryCount + 1 && Calls(after) + Owed(next) == Calls(r) + Owed(k) + 1))
  {
    hide AnswerFrom;
  }

  lemma TurnKeepsAhead(r: Race, draft: nat -> Tx, turn: Turn)
    requires Ahead(r)
    ensures Ahead(TakeTurn(r, draft, turn))
  {
    hide TakeTurn, Held, Owing;
    var after := TakeTurn(r, draft, turn);
    TurnMovesOne(r, draft, turn);
    TurnSavesItsCopy(r, draft, turn);
    OwingAfter(r, after, turn.caller);
    IdleHoldsNothing();
  }

  lemma IdleHoldsNothing()
    ensures Held(Idle) == None && !Owes(Idle)
  {
  }

  /** The first overlap puts the calls ahead. */
  lemma OverlapPutsAhead(r: Race, draft: nat -> Tx, turn: Turn, active: Option<nat>)
    requires OneAtATime(r, active) && Overlaps(r, turn)
    ensures Ahead(TakeTurn(r, draft, turn))
  {
    var after := TakeTurn(r, draft, turn);
    var b :| b in r.callers && Resends(r.callers[b]);
    assert UnderWay(At(r, b)) && active == Some(b);
    assert forall c :: c in r.callers && Held(r.callers[c]).Some? ==> UnderWay(At(r, c));
    assert Owing(r) == {b};
    TurnMovesOne(r, draft, turn);
    OwingAfter(r, after, turn.caller);
  }

  lemma {:induction false} OverlappedIsAhead(draft: nat -> Tx, turns: seq<Turn>)
    requires FreshDrafts(draft) && !Serialized(draft, turns)
    ensures Ahead(RunRace(draft, turns))
  {
    hide TakeTurn, Overlaps, OneAtATime, FreshDrafts, Ahead;
    var last := |turns| - 1;
    var before := RunRace(draft, turns[..last]);
    if Serialized(draft, turns[..last]) {
      var active := SerializedIsOneAtATime(draft, turns[..last]);
      OverlapPutsAhead(before, draft, turns[last], active);
    } else {
      OverlappedIsAhead(draft, turns[..last]);
      TurnKeepsAhead(before, draft, turns[last]);
    }
  }

  // ---------------------------------------------------------------- the exact condition

  /** In every interleaving of any number of callers, once nobody is under way: the calls made equal the
      recorded retries and one if and only if no caller loaded a failed row while another was sending it
      again; otherwise there were more calls. */
  lemma CallsAreCountedIffSerialized(draft: nat -> Tx, turns: seq<Turn>)
    requires FreshDrafts(draft)
    requires RunRace(draft, turns).row.Some? && Quiet(RunRace(draft, turns))
    ensures var r := RunRace(draft, turns);
            && (Calls(r) == r.row.value.retryCount + 1 <==> Serialized(draft, turns))
            && Calls(r) >= r.row.value.retryCount + 1
  {
    hide RunRace, FreshDrafts, Serialized;
    var r := RunRace(draft, turns);
    if Serialized(draft, turns) {
      var active := SerializedIsOneAtATime(draft, turns);
      QuietHasNoActive(r, active);
    } else {
      OverlappedIsAhead(draft, turns);
      assert Owing(r) == {};
    }
  }

  /** Some copy of the transaction, in the table or in a caller's hands, accounts for all calls made and
      owed. */
  ghost predicate AccountedFor(r: Race) {
    r.row.Some?
    && (Calls(r) + |Owing(r)| == 1 + r.row.value.retryCount
        || exists c :: c in r.callers && Held(r.callers[c]).Some? && Calls(r) + |Owing(r)| == 1 + Held(r.callers[c]).value)
  }

  /** The same at every moment, also when callers have stopped half-way for good. */
  lemma AccountedForIffSerialized(draft: nat -> Tx, turns: seq<Turn>)
    requires FreshDrafts(draft) && RunRace(draft, turns).row.Some?
    ensures AccountedFor(RunRace(draft, turns)) <==> Serialized(draft, turns)
  {
    hide RunRace, FreshDrafts, Serialized;
    var r := RunRace(draft, turns);
    if Serialized(draft, turns) {
      var active := SerializedIsOneAtATime(draft, turns);
      if active == None {
        assert forall c :: c in r.callers ==> !UnderWay(At(r, c));
        assert Owing(r) == {};
      } else {
        ActiveAccounts(r, active.value);
      }
    } else {
      OverlappedIsAhead(draft, turns);
    }
  }

  lemma ActiveAccounts(r: Race, c: nat)
    requires OneAtATime(r, Some(c)) && r.row.Some?
    ensures c in r.callers && Held(r.callers[c]).Some? && Calls(r) + |Owing(r)| == 1 + Held(r.callers[c]).value
  {
    assert UnderWay(At(r, c));
    assert forall other :: other in r.callers && UnderWay(r.callers[other]) ==> UnderWay(At(r, other)) && other == c;
    assert Owing(r) == if Owes(At(r, c)) then {c} else {};
  }

  lemma QuietHasNoActive(r: Race, active: Option<nat>)
    requires OneAtATime(r, active) && Quiet(r)
    ensures active == None
  {
    assert forall c: nat :: !UnderWay(At(r, c));
  }
}
