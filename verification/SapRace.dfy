/** Interleaved executes of one idempotency key. Every load, every committed save and every adapter
    call of a caller is one atomic step; callers take their steps in any order, and may stop anywhere. */
module SapRace {
  import opened Common
  import opened SapTransactions
  import opened SapGatewaySpec
  import opened SapGatewayLaws

  /** Where one caller is in its execute. The transaction it holds is its own copy. A caller is done
      without an answer when the database refused its insert. */
  datatype Caller =
    | Idle
    | SawNothing
    | Created(t: Tx)
    | Started(t: Tx)
    | Answered(t: Tx, reply: AdapterReply)
    | Resuming(t: Tx)
    | Restarted(t: Tx)
    | AnsweredAgain(t: Tx, reply: AdapterReply)
    | Done(created: bool, answer: Option<CallResult>)

  /** The key's row, every caller that has moved, and who called the adapter from which branch. */
  datatype Race = Race(row: Option<Tx>, callers: map<nat, Caller>, creationCalls: seq<nat>, resumeCalls: seq<nat>)

  const FRESH_KEY := Race(None, map[], [], [])

  function At(r: Race, c: nat): Caller {
    if c in r.callers then r.callers[c] else Idle
  }

  /** One turn of one caller; `reply` is what the adapter answers if the turn is an adapter call, and
      `now` what the clock shows. */
  datatype Turn = Turn(caller: nat, reply: AdapterReply, now: Time)

  function Settle(t: Tx, reply: AdapterReply, now: Time): Tx {
    match reply
    case Reply(response, document) =>
      t.(status := Success, response := Some(response), document := OrNone(document), completedAt := Some(now), error := None)
    case Refused(message) => t.(status := Failed, error := Some(message))
    case Crashed => t
  }

  function Move(r: Race, c: nat, to: Caller): Race {
    r.(callers := r.callers[c := to])
  }

  /** The row holds what the next load of it returns. */
  function Write(r: Race, c: nat, t: Tx, to: Caller): Race {
    Move(r, c, to).(row := Some(ToDomain(t.id, ToRow(t))))
  }

  /** A failed row with budget left, as a caller with this payload holds it to send it again. */
  function ToResume(t: Tx, payload: Payload): Tx {
    t.(status := Retrying, retryCount := t.retryCount + 1, request := payload)
  }

  /** The answer from a row that is not sent again. */
  function AnswerFrom(t: Tx): CallResult {
    match t.status
    case Success => Returned(t.response.GetOr(map[]), OrEmpty(t.document))
    case Pending => IdempotencyError
    case InProgress => IdempotencyError
    case Retrying => IdempotencyError
    case Failed => RetryExhausted
    case Exhausted => RetryExhausted
  }

  /** `draft(c)` is the PENDING transaction that caller c would create. */
  function TakeTurn(r: Race, draft: nat -> Tx, turn: Turn): Race {
    var c := turn.caller;
    match At(r, c)
    case Idle =>
      if r.row.None? then Move(r, c, SawNothing)
      else if r.row.value.CanRetry() then
        Move(r, c, Resuming(ToResume(r.row.value, draft(c).request)))
      else Move(r, c, Done(false, Some(AnswerFrom(r.row.value))))
    case SawNothing =>
      // the unique constraint refuses the second insert of a key
      if r.row.None? then Write(r, c, draft(c), Created(draft(c))) else Move(r, c, Done(false, None))
    case Created(t) => Write(r, c, t.(status := InProgress), Started(t.(status := InProgress)))
    case Started(t) => Move(r, c, Answered(t, turn.reply)).(creationCalls := r.creationCalls + [c])
    case Answered(t, reply) =>
      if reply.Crashed? then Move(r, c, Done(true, Some(AdapterCrash)))
      else Write(r, c, Settle(t, reply, turn.now), Done(true, Some(ResultOf(reply))))
    case Resuming(t) =>
      // the resume branch saves its copy without looking at the row again
      if t.status == Retrying then Write(r, c, t, Resuming(t.(status := InProgress)))
      else Write(r, c, t, Restarted(t))
    case Restarted(t) => Move(r, c, AnsweredAgain(t, turn.reply)).(resumeCalls := r.resumeCalls + [c])
    case AnsweredAgain(t, reply) =>
      if reply.Crashed? then Move(r, c, Done(false, Some(AdapterCrash)))
      else Write(r, c, Settle(t, reply, turn.now), Done(false, Some(ResultOf(reply))))
    case Done(_, _) => r
  }

  function RunRace(draft: nat -> Tx, turns: seq<Turn>): Race {
    if turns == [] then FRESH_KEY
    else TakeTurn(RunRace(draft, turns[..|turns| - 1]), draft, turns[|turns| - 1])
  }

  /** The caller's insert of the key went through. */
  predicate PastInsert(k: Caller) {
    k.Created? || k.Started? || k.Answered? || (k.Done? && k.created)
  }

  /** At most one caller, the winner, got past the insert; only it may have called from that branch. */
  ghost predicate OneWinner(r: Race, winner: Option<nat>) {
    && (r.row.None? <==> winner.None?)
    && (forall c: nat :: PastInsert(At(r, c)) <==> winner == Some(c))
    && (winner.None? ==> r.creationCalls == [])
    && (winner.Some? ==>
          r.creationCalls == if At(r, winner.value).Created? || At(r, winner.value).Started? then [] else [winner.value])
    && (forall c: nat :: At(r, c) in {Idle, SawNothing} || At(r, c).Done? || r.row.Some?)
  }

  lemma TurnKeepsWinner(r: Race, draft: nat -> Tx, turn: Turn, winner: Option<nat>) returns (next: Option<nat>)
    requires OneWinner(r, winner)
    ensures OneWinner(TakeTurn(r, draft, turn), next)
  {
    hide AnswerFrom;
    var c, after := turn.caller, TakeTurn(r, draft, turn);
    assert forall other: nat :: other != c ==> At(after, other) == At(r, other);
    next := if At(r, c).SawNothing? && r.row.None? then Some(c) else winner;
  }

  lemma {:induction false} SomeWinner(draft: nat -> Tx, turns: seq<Turn>) returns (winner: Option<nat>)
    ensures OneWinner(RunRace(draft, turns), winner)
  {
    if turns == [] {
      winner := None;
    } else {
      hide TakeTurn, OneWinner;
      var last := |turns| - 1;
      winner := SomeWinner(draft, turns[..last]);
      winner := TurnKeepsWinner(RunRace(draft, turns[..last]), draft, turns[last], winner);
    }
  }

  /** In every interleaving of any number of callers, at most one gets past the first insert, and the
      adapter is called at most once from the creation branch, by that caller. */
  lemma CreationIsExclusive(draft: nat -> Tx, turns: seq<Turn>, a: nat, b: nat)
    ensures var r := RunRace(draft, turns);
            && (PastInsert(At(r, a)) && PastInsert(At(r, b)) ==> a == b)
            && |r.creationCalls| <= 1
            && (a in r.creationCalls ==> PastInsert(At(r, a)))
            && (PastInsert(At(r, a)) ==> r.row.Some?)
  {
    var winner := SomeWinner(draft, turns);
  }

  /** The row of a fresh key exists exactly when some caller has inserted it. */
  lemma RowHasAnInserter(draft: nat -> Tx, turns: seq<Turn>)
    requires RunRace(draft, turns).row.Some?
    ensures exists c: nat :: PastInsert(At(RunRace(draft, turns), c))
  {
    var winner := SomeWinner(draft, turns);
    assert PastInsert(At(RunRace(draft, turns), winner.value));
  }

  const REFUSE := Refused("rejected")

  function FailedOnce(t: Tx): Tx {
    t.(status := Failed, error := Some("rejected"))
  }

  function SecondAttempt(t: Tx, payload: Payload): Tx {
    ToResume(FailedOnce(t), payload)
  }

  lemma FirstAttemptFails(draft: nat -> Tx) returns (turns: seq<Turn>, r: Race)
    requires draft(0) == NewTx(draft(0).id, Fault, "", "key", map[])
    ensures r == RunRace(draft, turns) && r.callers.Keys == {0}
    ensures r.row == Some(FailedOnce(draft(0))) && r.creationCalls == [0] && r.resumeCalls == []
  {
    turns, r := Extend(draft, [], FRESH_KEY, Turn(0, REFUSE, 0));
    turns, r := Extend(draft, turns, r, Turn(0, REFUSE, 0));
    turns, r := Extend(draft, turns, r, Turn(0, REFUSE, 0));
    turns, r := Extend(draft, turns, r, Turn(0, REFUSE, 0));
    turns, r := Extend(draft, turns, r, Turn(0, REFUSE, 0));
  }

  lemma OneLoads(draft: nat -> Tx, before: seq<Turn>, start: Race, c: nat) returns (turns: seq<Turn>, r: Race)
    requires draft(0) == NewTx(draft(0).id, Fault, "", "key", map[])
    requires start == RunRace(draft, before) && start.row == Some(FailedOnce(draft(0))) && At(start, c).Idle?
    ensures r == RunRace(draft, turns)
    ensures r == Move(start, c, Resuming(SecondAttempt(draft(0), draft(c).request)))
  {
    turns, r := Extend(draft, before, start, Turn(c, REFUSE, 0));
  }

  lemma OneResumes(draft: nat -> Tx, before: seq<Turn>, start: Race, c: nat) returns (turns: seq<Turn>, r: Race)
    requires start == RunRace(draft, before)
    requires draft(0) == NewTx(draft(0).id, Fault, "", "key", map[])
    requires At(start, c) == Resuming(SecondAttempt(draft(0), draft(c).request))
    ensures r == RunRace(draft, turns)
    ensures r.resumeCalls == start.resumeCalls + [c] && r.creationCalls == start.creationCalls
    ensures r.row == Some(SecondAttempt(draft(0), draft(c).request).(status := InProgress))
    ensures forall other: nat :: other != c ==> At(r, other) == At(start, other)
  {
    hide RunRace;
    turns, r := Extend(draft, before, start, Turn(c, REFUSE, 0));
    turns, r := Extend(draft, turns, r, Turn(c, REFUSE, 0));
    turns, r := Extend(draft, turns, r, Turn(c, REFUSE, 0));
  }

  /** Calls must not overlap for the call count to follow the retry count: here two callers resume the
      same FAILED row, three adapter calls are made, and the row records a single retry. */
  lemma OverlappingResumesUndercount(draft: nat -> Tx)
    requires draft(0) == NewTx(draft(0).id, Fault, "", "key", map[])
    ensures exists turns :: var r := RunRace(draft, turns);
              && r.row.Some? && r.row.value.retryCount == 1
              && |r.creationCalls| + |r.resumeCalls| == 3
  {
    hide RunRace, TakeTurn;
    var turns, r := FirstAttemptFails(draft);
    turns, r := OneLoads(draft, turns, r, 1);
    turns, r := OneLoads(draft, turns, r, 2);
    turns, r := OneResumes(draft, turns, r, 1);
    turns, r := OneResumes(draft, turns, r, 2);
    assert |RunRace(draft, turns).resumeCalls| == 2;
  }

  lemma Extend(draft: nat -> Tx, turns: seq<Turn>, r: Race, turn: Turn) returns (turns': seq<Turn>, r': Race)
    requires r == RunRace(draft, turns)
    ensures turns' == turns + [turn] && r' == TakeTurn(r, draft, turn) == RunRace(draft, turns')
  {
    turns', r' := turns + [turn], TakeTurn(r, draft, turn);
    assert turns'[..|turns'| - 1] == turns;
  }
}
