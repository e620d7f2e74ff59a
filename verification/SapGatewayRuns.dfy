/** The gateway's promises, over every run of non-overlapping calls that starts with an empty table. */
module SapGatewayRuns {
  import opened Common
  import opened SapTransactions
  import opened SapGatewaySpec
  import opened SapGatewayLaws

  datatype Op =
    | DoExecute(newId: TxId, request: Request, adapter: Adapter, now: Time)
    | DoRetry(id: TxId, adapter: Adapter, now: Time)
    | DoSweep(pending: seq<Tx>, adapters: map<ObjectType, Adapter>, now: Time)

  /** Row identifiers are drawn fresh, and a sweep works on the listing the table gives it. */
  ghost predicate Possible(g: Gateway, op: Op) {
    match op
    case DoExecute(newId, _, _, _) => newId !in g.rows
    case DoRetry(_, _, _) => true
    case DoSweep(pending, _, _) => IsPendingListing(g, pending)
  }

  ghost function Step(g: Gateway, op: Op): Gateway {
    if !Possible(g, op) then g else
    match op
    case DoExecute(newId, request, adapter, now) => Execute(g, newId, request, adapter, now).0
    case DoRetry(id, adapter, now) => Retry(g, id, adapter, now).0
    case DoSweep(pending, adapters, now) => SweepOver(g, pending, adapters, now).0
  }

  ghost function RunFrom(g: Gateway, ops: seq<Op>): Gateway {
    if ops == [] then g else Step(RunFrom(g, ops[..|ops| - 1]), ops[|ops| - 1])
  }

  ghost function Run(ops: seq<Op>): Gateway {
    RunFrom(EMPTY_GATEWAY, ops)
  }

  ghost predicate DefaultBudget(g: Gateway) {
    forall id :: id in g.rows ==> g.rows[id].row.maxRetries == MAX_RETRY_ATTEMPTS
  }

  /** Rows are only ever created with the default budget, and no call changes a budget. */
  ghost predicate KeepsBudgets(g: Gateway, after: Gateway) {
    forall id :: id in after.rows ==>
      after.rows[id].row.maxRetries == if id in g.rows then g.rows[id].row.maxRetries else MAX_RETRY_ATTEMPTS
  }

  lemma InvokeTouchesOneRow(g: Gateway, t: Tx, adapter: Adapter, payload: Payload, now: Time)
    requires t.id in g.rows && g.rows[t.id].row.maxRetries == t.maxRetries
    ensures var after := Invoke(g, t, adapter, payload, now).0;
            && after.rows.Keys == g.rows.Keys
            && after.rows[t.id].row.maxRetries == t.maxRetries
            && forall id :: id in g.rows && id != t.id ==> after.rows[id] == g.rows[id]
  {
  }

  lemma ExecuteKeepsBudgets(g: Gateway, newId: TxId, q: Request, adapter: Adapter, now: Time)
    requires newId !in g.rows
    ensures KeepsBudgets(g, Execute(g, newId, q, adapter, now).0)
  {
    hide Invoke;
    if q.key in g.byKey && g.byKey[q.key] in g.rows {
      var t := ToDomain(g.byKey[q.key], g.rows[g.byKey[q.key]].row);
      var resumed := t.(status := Retrying, retryCount := t.retryCount + 1, request := q.payload);
      InvokeTouchesOneRow(Save(g, resumed), resumed, adapter, q.payload, now);
    } else {
      var created := NewTx(newId, q.objectType, q.objectId, q.key, q.payload);
      var started := created.(status := InProgress);
      InvokeTouchesOneRow(Save(Save(g, created), started), started, adapter, q.payload, now);
    }
  }

  lemma RetryKeepsBudgets(g: Gateway, id: TxId, adapter: Adapter, now: Time)
    ensures KeepsBudgets(g, Retry(g, id, adapter, now).0) && Retry(g, id, adapter, now).0.rows.Keys == g.rows.Keys
  {
    hide Invoke;
    if id in g.rows {
      var t := ToDomain(id, g.rows[id].row);
      var resumed := t.(status := Retrying, retryCount := t.retryCount + 1);
      InvokeTouchesOneRow(Save(g, resumed), resumed, adapter, t.request, now);
    }
  }

  lemma SweepKeepsBudgets(g: Gateway, pending: seq<Tx>, adapters: map<ObjectType, Adapter>, now: Time)
    ensures KeepsBudgets(g, SweepOver(g, pending, adapters, now).0)
    ensures SweepOver(g, pending, adapters, now).0.rows.Keys == g.rows.Keys
    decreases |pending|
  {
    if pending != [] && pending[0].objectType !in adapters {
      SweepKeepsBudgets(g, pending[1..], adapters, now);
    } else if pending != [] {
      hide Retry;
      var (after, r) := Retry(g, pending[0].id, adapters[pending[0].objectType], now);
      RetryKeepsBudgets(g, pending[0].id, adapters[pending[0].objectType], now);
      SweepKeepsBudgets(after, pending[1..], adapters, now);
    }
  }

  lemma StepKeepsRest(g: Gateway, op: Op)
    requires AtRest(g)
    ensures AtRest(Step(g, op)) && KeepsBudgets(g, Step(g, op))
  {
    hide AtRest, EntryAtRest, Execute, Retry, SweepOver, IsPendingListing;
    if Possible(g, op) {
      match op
      case DoExecute(newId, request, adapter, now) =>
        ExecuteKeepsRest(g, newId, request, adapter, now);
        ExecuteKeepsBudgets(g, newId, request, adapter, now);
      case DoRetry(id, adapter, now) =>
        RetryKeepsRest(g, id, adapter, now);
        RetryKeepsBudgets(g, id, adapter, now);
      case DoSweep(pending, adapters, now) =>
        SweepKeepsRest(g, pending, adapters, now);
        SweepKeepsBudgets(g, pending, adapters, now);
    }
  }

  lemma {:induction false} RunIsAtRest(ops: seq<Op>)
    ensures AtRest(Run(ops)) && DefaultBudget(Run(ops))
  {
    hide AtRest, Step;
    if ops == [] {
      EmptyIsAtRest();
    } else {
      RunIsAtRest(ops[..|ops| - 1]);
      StepKeepsRest(Run(ops[..|ops| - 1]), ops[|ops| - 1]);
    }
  }

  lemma EmptyIsAtRest()
    ensures AtRest(EMPTY_GATEWAY)
  {
  }

  /** In every run: one adapter call per attempt, never more than the budget and one, and at most one
      success, which is the newest call and is what the row's status reports. */
  lemma CallsFollowTheBudget(ops: seq<Op>, id: TxId)
    requires id in Run(ops).rows
    ensures var Entry(row, _, calls) := Run(ops).rows[id];
            && |calls| == row.retryCount + 1 <= MAX_RETRY_ATTEMPTS + 1 == 4
            && (forall i :: 0 <= i < |calls| - 1 ==> calls[i].reply.Refused?)
            && (calls[|calls| - 1].reply.Reply? <==> row.status == Success)
  {
    RunIsAtRest(ops);
    var calls := Run(ops).rows[id].calls;
    assert forall i :: 0 <= i < |calls| - 1 ==> calls[i] == calls[..|calls| - 1][i];
  }

  /** In every run, the statuses saved for a row start at PENDING and follow the transition table one
      by one; a completion time is recorded exactly in the two terminal statuses, and a response or a
      document number only on success. */
  lemma StatusesFollowTheTable(ops: seq<Op>, id: TxId)
    requires id in Run(ops).rows
    ensures var Entry(row, saved, _) := Run(ops).rows[id];
            && IsPath(saved) && saved[|saved| - 1] == row.status
            && (row.completedAt.Some? <==> Allowed(row.status) == {})
            && (row.response.Some? <==> row.status == Success)
            && (row.document != "" ==> row.status == Success)
  {
    RunIsAtRest(ops);
    var row := Run(ops).rows[id].row;
    match row.status
    case InProgress => assert Success in Allowed(InProgress);
    case Failed => assert Retrying in Allowed(Failed);
    case _ =>
  }

  predicate IsSettled(g: Gateway, id: TxId) {
    id in g.rows && g.rows[id].row.status in {Success, Exhausted, InProgress}
  }

  lemma SettledThroughExecute(g: Gateway, newId: TxId, q: Request, adapter: Adapter, now: Time, id: TxId)
    requires IsSettled(g, id) && newId !in g.rows
    ensures id in Execute(g, newId, q, adapter, now).0.rows && Execute(g, newId, q, adapter, now).0.rows[id] == g.rows[id]
  {
    hide Invoke;
    if q.key in g.byKey && g.byKey[q.key] in g.rows {
      var t := ToDomain(g.byKey[q.key], g.rows[g.byKey[q.key]].row);
      var resumed := t.(status := Retrying, retryCount := t.retryCount + 1, request := q.payload);
      InvokeTouchesOneRow(Save(g, resumed), resumed, adapter, q.payload, now);
    } else {
      var created := NewTx(newId, q.objectType, q.objectId, q.key, q.payload);
      var started := created.(status := InProgress);
      InvokeTouchesOneRow(Save(Save(g, created), started), started, adapter, q.payload, now);
    }
  }

  lemma SettledThroughRetry(g: Gateway, other: TxId, adapter: Adapter, now: Time, id: TxId)
    requires IsSettled(g, id)
    ensures id in Retry(g, other, adapter, now).0.rows && Retry(g, other, adapter, now).0.rows[id] == g.rows[id]
  {
  }

  lemma SettledThroughSweep(g: Gateway, pending: seq<Tx>, adapters: map<ObjectType, Adapter>, now: Time, id: TxId)
    requires IsSettled(g, id)
    ensures var after := SweepOver(g, pending, adapters, now).0;
            id in after.rows && after.rows[id] == g.rows[id]
    decreases |pending|
  {
    if pending != [] && pending[0].objectType !in adapters {
      SettledThroughSweep(g, pending[1..], adapters, now, id);
    } else if pending != [] {
      hide Retry;
      var (after, r) := Retry(g, pending[0].id, adapters[pending[0].objectType], now);
      SettledThroughRetry(g, pending[0].id, adapters[pending[0].objectType], now, id);
      SettledThroughSweep(after, pending[1..], adapters, now, id);
    }
  }

  lemma SettledThroughStep(g: Gateway, op: Op, id: TxId)
    requires IsSettled(g, id)
    ensures id in Step(g, op).rows && Step(g, op).rows[id] == g.rows[id]
  {
    hide Execute, Retry, SweepOver, IsPendingListing;
    if Possible(g, op) {
      match op
      case DoExecute(newId, q, adapter, now) => SettledThroughExecute(g, newId, q, adapter, now, id);
      case DoRetry(other, adapter, now) => SettledThroughRetry(g, other, adapter, now, id);
      case DoSweep(pending, adapters, now) => SettledThroughSweep(g, pending, adapters, now, id);
    }
  }

  lemma {:induction false} SettledThroughRun(ops: seq<Op>, more: seq<Op>, id: TxId)
    requires id in Run(ops).rows && Run(ops).rows[id].row.status != Failed
    ensures var after := RunFrom(Run(ops), more);
            && id in after.rows && after.rows[id] == Run(ops).rows[id]
            && after == Run(ops + more)
    decreases |more|
  {
    hide AtRest, EntryAtRest, Step;
    RunIsAtRest(ops);
    StatusesAtRest(Run(ops), id);
    if more == [] {
      assert ops + more == ops;
    } else {
      var last := |more| - 1;
      SettledThroughRun(ops, more[..last], id);
      assert (ops + more)[..|ops + more| - 1] == ops + more[..last];
      RunIsAtRest(ops + more[..last]);
      SettledThroughStep(Run(ops + more[..last]), more[last], id);
    }
  }

  lemma StatusesAtRest(g: Gateway, id: TxId)
    requires AtRest(g) && id in g.rows
    ensures g.rows[id].row.status in {Success, Failed, Exhausted, InProgress}
  {
    assert EntryAtRest(g.rows[id]);
  }

  /** Once a key has succeeded, nothing a later call does reaches the adapter for it or changes its
      row. The same holds after exhaustion and after an adapter crash. */
  lemma NothingAfterSuccess(ops: seq<Op>, more: seq<Op>, id: TxId)
    requires id in Run(ops).rows && Run(ops).rows[id].row.status != Failed
    ensures id in Run(ops + more).rows && Run(ops + more).rows[id] == Run(ops).rows[id]
  {
    SettledThroughRun(ops, more, id);
  }

  /** The row that the unique index holds for a key, with its history. */
  function EntryFor(g: Gateway, key: string): Option<Entry> {
    if key in g.byKey && g.byKey[key] in g.rows then Some(g.rows[g.byKey[key]]) else None
  }

  /** Executing a key that already succeeded, with any payload and any adapter, changes nothing and
      returns exactly the pair that the one successful adapter call returned. */
  lemma SuccessIsReplayed(ops: seq<Op>, newId: TxId, q: Request, adapter: Adapter, now: Time)
    requires EntryFor(Run(ops), q.key).Some? && EntryFor(Run(ops), q.key).value.row.status == Success
    ensures var calls := EntryFor(Run(ops), q.key).value.calls;
            && calls != [] && calls[|calls| - 1].reply.Reply?
            && Execute(Run(ops), newId, q, adapter, now)
               == (Run(ops), Returned(calls[|calls| - 1].reply.response, calls[|calls| - 1].reply.document))
  {
    RunIsAtRest(ops);
    assert EntryAtRest(EntryFor(Run(ops), q.key).value);
  }

  /** The row after an adapter call with this payload: the answer, the attempt's number and the payload are
      on record, and everything else is as before. */
  predicate Records(before: TxRow, payload: Payload, retryCount: nat, reply: AdapterReply, now: Time, after: TxRow) {
    var sent := before.(request := payload, retryCount := retryCount);
    match reply
    case Reply(response, document) =>
      after == sent.(status := Success, response := Some(response), document := document, error := "",
                     completedAt := Some(now))
    case Refused(message) => after == sent.(status := Failed, error := message)
    case Crashed => after == sent.(status := InProgress)
  }

  /** What execute does for a key in each of the statuses its row can rest in. */
  ghost predicate AnsweredFrom(g: Gateway, e: Entry, q: Request, adapter: Adapter, now: Time, after: Gateway, r: CallResult) {
    var reply := adapter(q.key, |e.calls|, q.payload);
    if e.row.status == Failed && e.row.retryCount < MAX_RETRY_ATTEMPTS then
      && r == ResultOf(reply)
      && EntryFor(after, q.key).Some?
      && Records(e.row, q.payload, e.row.retryCount + 1, reply, now, EntryFor(after, q.key).value.row)
      && EntryFor(after, q.key).value.calls == e.calls + [Call(q.payload, reply)]
    else
      && after == g
      && (r == RetryExhausted <==> e.row.status in {Failed, Exhausted})
      && (r == IdempotencyError <==> e.row.status == InProgress)
      && (r.Returned? <==> e.row.status == Success)
  }

  lemma ExecuteOnKnownKey(g: Gateway, newId: TxId, q: Request, adapter: Adapter, now: Time)
    requires AtRest(g) && DefaultBudget(g) && q.key in g.byKey
    ensures var (after, r) := Execute(g, newId, q, adapter, now);
            EntryFor(g, q.key).Some? && AnsweredFrom(g, EntryFor(g, q.key).value, q, adapter, now, after, r)
  {
    hide AtRest, EntryAtRest, Invoke, Save, DefaultBudget;
    KnownKey(g, q.key);
    var id := g.byKey[q.key];
    if ToDomain(id, g.rows[id].row).CanRetry() {
      SendAgain(g, id, adapter, q.payload, now);
    }
  }

  lemma KnownKey(g: Gateway, key: string)
    requires AtRest(g) && DefaultBudget(g) && key in g.byKey
    ensures g.byKey[key] in g.rows
    ensures var row := g.rows[g.byKey[key]].row;
            && row.key == key && row.status in {Success, Failed, Exhausted, InProgress}
            && row.retryCount <= row.maxRetries == MAX_RETRY_ATTEMPTS
  {
    StatusesAtRest(g, g.byKey[key]);
  }

  /** An execute answers for its key from the row alone, or makes the key's first call. */
  ghost predicate Answers(g: Gateway, q: Request, adapter: Adapter, now: Time, after: Gateway, r: CallResult) {
    match EntryFor(g, q.key)
    case Some(e) => AnsweredFrom(g, e, q, adapter, now, after, r)
    case None =>
      var blank := TxRow(q.objectType, q.objectId, q.key, Pending, 0, 3, q.payload, None, "", "", None);
      var reply := adapter(q.key, 0, q.payload);
      && r == ResultOf(reply)
      && EntryFor(after, q.key).Some?
      && Records(blank, q.payload, 0, reply, now, EntryFor(after, q.key).value.row)
      && EntryFor(after, q.key).value.calls == [Call(q.payload, reply)]
  }

  lemma ExecuteAtRest(g: Gateway, newId: TxId, q: Request, adapter: Adapter, now: Time)
    requires AtRest(g) && DefaultBudget(g) && newId !in g.rows
    ensures var (after, r) := Execute(g, newId, q, adapter, now);
            Answers(g, q, adapter, now, after, r)
  {
    hide Execute, EntryAtRest;
    if q.key in g.byKey {
      KnownKey(g, q.key);
      ExecuteOnKnownKey(g, newId, q, adapter, now);
    } else {
      ExecuteNewKey(g, newId, q, adapter, now);
    }
  }

  /** In every run, an execute answers for its key from the row alone, or makes the key's first call. */
  lemma ExecuteAnswers(ops: seq<Op>, newId: TxId, q: Request, adapter: Adapter, now: Time)
    requires newId !in Run(ops).rows
    ensures var (after, r) := Execute(Run(ops), newId, q, adapter, now);
            Answers(Run(ops), q, adapter, now, after, r)
  {
    hide Execute, Answers, AtRest, DefaultBudget;
    RunIsAtRest(ops);
    ExecuteAtRest(Run(ops), newId, q, adapter, now);
  }

  /** In every run, a retry sends the stored request of a failed row once more while the budget lasts,
      closes a failed row whose budget is spent, and leaves a row in any other status alone. */
  lemma RetryAnswers(ops: seq<Op>, id: TxId, adapter: Adapter, now: Time)
    requires id in Run(ops).rows
    ensures var (after, r) := Retry(Run(ops), id, adapter, now);
            var e := Run(ops).rows[id];
            var reply := adapter(e.row.key, |e.calls|, e.row.request);
            && (forall other :: other in Run(ops).rows && other != id ==>
                  other in after.rows && after.rows[other] == Run(ops).rows[other])
            && if e.row.status != Failed then after == Run(ops) && r == InvalidTransition
               else if e.row.retryCount == MAX_RETRY_ATTEMPTS then
                 && r == RetryExhausted && id in after.rows
                 && after.rows[id] == Entry(e.row.(status := Exhausted, completedAt := Some(now)), e.saved + [Exhausted], e.calls)
               else
                 && r == ResultOf(reply) && id in after.rows
                 && after.rows[id].calls == e.calls + [Call(e.row.request, reply)]
                 && Records(e.row, e.row.request, e.row.retryCount + 1, reply, now, after.rows[id].row)
  {
    hide AtRest, EntryAtRest, Invoke, Run;
    RunIsAtRest(ops);
    var g := Run(ops);
    RetryAtRest(g, id, adapter, now);
  }

  lemma RetryAtRest(g: Gateway, id: TxId, adapter: Adapter, now: Time)
    requires AtRest(g) && DefaultBudget(g) && id in g.rows
    ensures var (after, r) := Retry(g, id, adapter, now);
            var e := g.rows[id];
            if e.row.status != Failed then after == g && r == InvalidTransition
            else if e.row.retryCount == MAX_RETRY_ATTEMPTS then
              && r == RetryExhausted
              && after == Put(g, id, Entry(e.row.(status := Exhausted, completedAt := Some(now)), e.saved + [Exhausted], e.calls))
            else
              var reply := adapter(e.row.key, |e.calls|, e.row.request);
              && r == ResultOf(reply)
              && after == Put(g, id, Sent(e, Resumed(id, e.row, e.row.request), adapter, e.row.request, now))
  {
    hide Invoke, DefaultBudget;
    StatusesAtRest(g, id);
    assert EntryAtRest(g.rows[id]);
    assert g.rows[id].row.maxRetries == MAX_RETRY_ATTEMPTS by {
      KnownKey(g, g.rows[id].row.key);
    }
    if ToDomain(id, g.rows[id].row).CanRetry() {
      SendAgain(g, id, adapter, g.rows[id].row.request, now);
    }
  }
}
