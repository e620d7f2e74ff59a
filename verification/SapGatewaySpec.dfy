/** What one call of the SAP write gateway does to the transaction table, as functions on values. */
module SapGatewaySpec {
  import opened Common
  import opened SapTransactions

  /** What an adapter does when it is called: it returns a pair, raises the integration error, or
      raises something else. It may answer differently for every key and every attempt. */
  datatype AdapterReply = Reply(response: Payload, document: string) | Refused(message: string) | Crashed
  type Adapter = (string, nat, Payload) -> AdapterReply

  datatype Call = Call(request: Payload, reply: AdapterReply)

  datatype CallResult =
    | Returned(response: Payload, document: string)
    | IntegrationError(message: string)
    | IdempotencyError
    | RetryExhausted
    | InvalidTransition
    | NotFound
    | AdapterCrash

  /** A table row with two history variables: every status ever saved for it and every adapter call
      made for it, oldest first. */
  datatype Entry = Entry(row: TxRow, saved: seq<Status>, calls: seq<Call>)

  /** The transaction table and the unique index on the idempotency key. */
  datatype Gateway = Gateway(rows: map<TxId, Entry>, byKey: map<string, TxId>)

  const EMPTY_GATEWAY := Gateway(map[], map[])

  ghost predicate IndexOk(g: Gateway) {
    && (forall id :: id in g.rows ==> g.rows[id].row.key in g.byKey && g.byKey[g.rows[id].row.key] == id)
    && (forall key :: key in g.byKey ==> g.byKey[key] in g.rows && g.rows[g.byKey[key]].row.key == key)
  }

  /** The unique constraint lets a row with this identifier and this key be written. */
  predicate MayWrite(g: Gateway, id: TxId, key: string) {
    key in g.byKey ==> g.byKey[key] == id
  }

  function EntryOf(g: Gateway, t: Tx): Entry {
    if t.id in g.rows then g.rows[t.id] else Entry(ToRow(t), [], [])
  }

  /** The index without the key that a row is about to give up. */
  function Freed(g: Gateway, id: TxId, key: string): map<string, TxId> {
    if id in g.rows && g.rows[id].row.key != key then g.byKey - {g.rows[id].row.key} else g.byKey
  }

  function Put(g: Gateway, id: TxId, e: Entry): Gateway {
    Gateway(g.rows[id := e], Freed(g, id, e.row.key)[e.row.key := id])
  }

  function Save(g: Gateway, t: Tx): Gateway {
    var e := EntryOf(g, t);
    Put(g, t.id, Entry(ToRow(t), e.saved + [t.status], e.calls))
  }

  function Logged(g: Gateway, t: Tx, c: Call): Gateway {
    var e := EntryOf(g, t);
    Put(g, t.id, e.(calls := e.calls + [c]))
  }

  /** Calls the adapter for a transaction that was started or is being retried, and records the answer. */
  function Invoke(g: Gateway, t: Tx, adapter: Adapter, payload: Payload, now: Time): (Gateway, CallResult) {
    var started := t.(status := InProgress);
    var ready := if t.status == Retrying then Save(g, started) else g;
    var reply := adapter(t.key, |EntryOf(ready, t).calls|, payload);
    var called := Logged(ready, t, Call(payload, reply));
    match reply
    case Refused(message) =>
      (Save(called, started.(status := Failed, error := Some(message))), IntegrationError(message))
    case Reply(response, document) =>
      (Save(called, started.(status := Success, response := Some(response), document := OrNone(document),
                             completedAt := Some(now), error := None)),
       Returned(response, document))
    case Crashed => (called, AdapterCrash)
  }

  function HandleExisting(g: Gateway, t: Tx, payload: Payload, adapter: Adapter, now: Time)
    : (Gateway, CallResult)
  {
    match t.status
    case Success => (g, Returned(t.response.GetOr(map[]), OrEmpty(t.document)))
    case Pending => (g, IdempotencyError)
    case InProgress => (g, IdempotencyError)
    case Retrying => (g, IdempotencyError)
    case Exhausted => (g, RetryExhausted)
    case Failed =>
      if !t.CanRetry() then (g, RetryExhausted) else
      var resumed := t.(status := Retrying, retryCount := t.retryCount + 1, request := payload);
      Invoke(Save(g, resumed), resumed, adapter, payload, now)
  }

  datatype Request = Request(objectType: ObjectType, objectId: string, key: string, payload: Payload)

  function Execute(g: Gateway, newId: TxId, q: Request, adapter: Adapter, now: Time): (Gateway, CallResult) {
    if q.key in g.byKey && g.byKey[q.key] in g.rows then
      var id := g.byKey[q.key];
      HandleExisting(g, ToDomain(id, g.rows[id].row), q.payload, adapter, now)
    else
      var created := NewTx(newId, q.objectType, q.objectId, q.key, q.payload);
      var started := created.(status := InProgress);
      Invoke(Save(Save(g, created), started), started, adapter, q.payload, now)
  }

  function Retry(g: Gateway, id: TxId, adapter: Adapter, now: Time): (Gateway, CallResult) {
    if id !in g.rows then (g, NotFound) else
    var t := ToDomain(id, g.rows[id].row);
    if t.CanRetry() then
      var resumed := t.(status := Retrying, retryCount := t.retryCount + 1);
      Invoke(Save(g, resumed), resumed, adapter, t.request, now)
    else if t.status == Failed || t.status == Retrying then
      (Save(g, t.(status := Exhausted, completedAt := Some(now))), RetryExhausted)
    else
      (g, InvalidTransition)
  }

  predicate Listed(row: TxRow) {
    row.status == Failed && row.retryCount < MAX_RETRY_ATTEMPTS
  }

  /** Some order of the rows that a sweep lists, without repetition. */
  ghost predicate IsPendingListing(g: Gateway, pending: seq<Tx>) {
    && (forall i :: 0 <= i < |pending| ==>
          && pending[i].id in g.rows && Listed(g.rows[pending[i].id].row)
          && pending[i] == ToDomain(pending[i].id, g.rows[pending[i].id].row))
    && (forall i, j :: 0 <= i < j < |pending| ==> pending[i].id != pending[j].id)
    && (forall id :: id in g.rows && Listed(g.rows[id].row) ==> ToDomain(id, g.rows[id].row) in pending)
  }

  predicate CaughtBySweep(r: CallResult) {
    r.Returned? || r.RetryExhausted? || r.IntegrationError?
  }

  /** A sweep over a listing: the resulting gateway and the exception that stopped it, if any. */
  function SweepOver(g: Gateway, pending: seq<Tx>, adapters: map<ObjectType, Adapter>, now: Time)
    : (Gateway, Option<CallResult>)
    decreases |pending|
  {
    if pending == [] then (g, None)
    else if pending[0].objectType !in adapters then SweepOver(g, pending[1..], adapters, now)
    else
      var (after, r) := Retry(g, pending[0].id, adapters[pending[0].objectType], now);
      if CaughtBySweep(r) then SweepOver(after, pending[1..], adapters, now) else (after, Some(r))
  }
}
