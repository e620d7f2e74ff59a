/** What every run of gateway calls, one after another, keeps. */
module SapGatewayLaws {
  import opened Common
  import opened SapTransactions
  import opened SapGatewaySpec

  /** A sequence of saved statuses that starts at PENDING and follows the transition table. */
  ghost predicate IsPath(h: seq<Status>) {
    if |h| <= 1 then h == [Pending]
    else IsPath(h[..|h| - 1]) && h[|h| - 1] in Allowed(h[|h| - 2])
  }

  ghost predicate AllRefused(calls: seq<Call>) {
    forall c :: c in calls ==> c.reply.Refused?
  }

  /** The answer that the newest call of a row must have had, given the row's status. */
  ghost predicate Explains(reply: AdapterReply, row: TxRow) {
    match row.status
    case Success => reply == Reply(row.response.GetOr(map[]), row.document)
    case Failed => reply == Refused(row.error)
    case Exhausted => reply == Refused(row.error)
    case InProgress => reply == Crashed
    case Pending => false
    case Retrying => false
  }

  /** A row between two gateway calls: one adapter call for the first attempt and one for every
      retry, all refused but the newest, which explains the status. */
  ghost predicate EntryAtRest(e: Entry) {
    var row, n := e.row, |e.calls|;
    && n == row.retryCount + 1
    && row.retryCount <= row.maxRetries
    && (row.status == Exhausted ==> row.retryCount == row.maxRetries)
    && AllRefused(e.calls[..n - 1])
    && Explains(e.calls[n - 1].reply, row)
    && (row.completedAt.Some? <==> row.status == Success || row.status == Exhausted)
    && (row.response.Some? <==> row.status == Success)
    && (row.document != "" ==> row.status == Success)
    && (row.status == Success ==> row.error == "")
    && IsPath(e.saved) && e.saved[|e.saved| - 1] == row.status
  }

  ghost predicate AtRest(g: Gateway) {
    IndexOk(g) && forall id :: id in g.rows ==> EntryAtRest(g.rows[id])
  }

  lemma PathExtends(h: seq<Status>, s: Status)
    requires IsPath(h) && s in Allowed(h[|h| - 1])
    ensures IsPath(h + [s])
  {
    assert (h + [s])[..|h|] == h;
  }

  /** Writing one good row keeps all rows good. */
  lemma PutKeepsRest(g: Gateway, id: TxId, e: Entry)
    requires AtRest(g) && MayWrite(g, id, e.row.key) && EntryAtRest(e)
    ensures AtRest(Put(g, id, e))
  {
    hide EntryAtRest;
  }

  /** The row in which an adapter's answer leaves a transaction, and the result the caller gets. */
  function RowAfter(t: Tx, reply: AdapterReply, now: Time): TxRow {
    match reply
    case Reply(response, document) =>
      ToRow(t).(status := Success, response := Some(response), document := document, error := "",
                completedAt := Some(now))
    case Refused(message) => ToRow(t).(status := Failed, error := message)
    case Crashed => ToRow(t).(status := InProgress)
  }

  function ResultOf(reply: AdapterReply): CallResult {
    match reply
    case Reply(response, document) => Returned(response, document)
    case Refused(message) => IntegrationError(message)
    case Crashed => AdapterCrash
  }

  function Trail(reply: AdapterReply): seq<Status> {
    match reply
    case Reply(_, _) => [InProgress, Success]
    case Refused(_) => [InProgress, Failed]
    case Crashed => [InProgress]
  }

  /** The entry of a transaction that was sent once more. */
  function Sent(e: Entry, t: Tx, adapter: Adapter, payload: Payload, now: Time): Entry {
    var reply := adapter(t.key, |e.calls|, payload);
    Entry(RowAfter(t, reply, now), e.saved + [t.status] + Trail(reply), e.calls + [Call(payload, reply)])
  }

  lemma Overwrites(g: Gateway, id: TxId, e: Entry, f: Entry)
    requires e.row.key == f.row.key
    ensures Put(Put(g, id, e), id, f) == Put(g, id, f)
  {
    assert g.rows[id := e][id := f] == g.rows[id := f];
    assert g.byKey[e.row.key := id][e.row.key := id] == g.byKey[e.row.key := id];
  }

  /** The adapter call and the save after it, for a row that was just saved as IN_PROGRESS. */
  lemma AnswerWritesOneRow(g: Gateway, t: Tx, adapter: Adapter, payload: Payload, now: Time)
    requires t.status == InProgress && t.id in g.rows && g.rows[t.id].row == ToRow(t)
    ensures var e := g.rows[t.id];
            var reply := adapter(t.key, |e.calls|, payload);
            Invoke(g, t, adapter, payload, now)
            == (Put(g, t.id, Entry(RowAfter(t, reply, now), e.saved + Trail(reply)[1..], e.calls + [Call(payload, reply)])),
                ResultOf(reply))
  {
    var e := g.rows[t.id];
    var reply := adapter(t.key, |e.calls|, payload);
    var called := e.(calls := e.calls + [Call(payload, reply)]);
    assert Logged(g, t, Call(payload, reply)) == Put(g, t.id, called);
    if reply.Crashed? {
      assert e.saved + Trail(reply)[1..] == e.saved;
    } else {
      Overwrites(g, t.id, called, Entry(RowAfter(t, reply, now), e.saved + Trail(reply)[1..], called.calls));
    }
  }

  lemma SavedTwice(g: Gateway, t: Tx)
    ensures var e := EntryOf(g, t);
            var started := t.(status := InProgress);
            Save(Save(g, t), started)
            == Put(g, t.id, Entry(ToRow(started), e.saved + [t.status] + [InProgress], e.calls))
  {
    var e := EntryOf(g, t);
    Overwrites(g, t.id, Entry(ToRow(t), e.saved + [t.status], e.calls),
               Entry(ToRow(t.(status := InProgress)), e.saved + [t.status] + [InProgress], e.calls));
  }

  /** One call of the adapter and all the saves around it write one row. */
  lemma SendingWritesOneRow(g: Gateway, t: Tx, adapter: Adapter, payload: Payload, now: Time)
    ensures var e := EntryOf(g, t);
            var started := t.(status := InProgress);
            Invoke(Save(Save(g, t), started), started, adapter, payload, now)
            == (Put(g, t.id, Sent(e, t, adapter, payload, now)), ResultOf(adapter(t.key, |e.calls|, payload)))
  {
    var e := EntryOf(g, t);
    var started := t.(status := InProgress);
    var reply := adapter(t.key, |e.calls|, payload);
    var before := Entry(ToRow(started), e.saved + [t.status] + [InProgress], e.calls);
    SavedTwice(g, t);
    AnswerWritesOneRow(Put(g, t.id, before), started, adapter, payload, now);
    var sent := Sent(e, t, adapter, payload, now);
    assert before.saved + Trail(reply)[1..] == sent.saved;
    Overwrites(g, t.id, before, sent);
  }

  lemma TrailIsPath(h: seq<Status>, s: Status, reply: AdapterReply)
    requires (h == [] && s == Pending) || (IsPath(h) && h[|h| - 1] == Failed && s == Retrying)
    ensures IsPath(h + [s] + Trail(reply))
  {
    if h != [] {
      PathExtends(h, s);
    }
    PathExtends(h + [s], InProgress);
    assert h + [s] + Trail(reply) == h + [s] + [InProgress] + Trail(reply)[1..];
    if !reply.Crashed? {
      PathExtends(h + [s] + [InProgress], Trail(reply)[1]);
    }
  }

  lemma FirstSentIsAtRest(t: Tx, adapter: Adapter, now: Time)
    requires t == NewTx(t.id, t.objectType, t.objectId, t.key, t.request)
    ensures EntryAtRest(Sent(Entry(ToRow(t), [], []), t, adapter, t.request, now))
  {
    hide IsPath;
    TrailIsPath([], Pending, adapter(t.key, 0, t.request));
  }

  /** A failed transaction with budget left, as it is when it is sent again. */
  function Resumed(id: TxId, row: TxRow, payload: Payload): Tx {
    ToDomain(id, row).(status := Retrying, retryCount := row.retryCount + 1, request := payload)
  }

  lemma ResentIsAtRest(e: Entry, id: TxId, adapter: Adapter, payload: Payload, now: Time)
    requires EntryAtRest(e) && ToDomain(id, e.row).CanRetry()
    ensures EntryAtRest(Sent(e, Resumed(id, e.row, payload), adapter, payload, now))
  {
    var t := Resumed(id, e.row, payload);
    TrailIsPath(e.saved, Retrying, adapter(t.key, |e.calls|, payload));
    assert e.calls == e.calls[..|e.calls| - 1] + [e.calls[|e.calls| - 1]];
    assert Sent(e, t, adapter, payload, now).calls[..|e.calls|] == e.calls;
  }

  lemma SpentIsAtRest(e: Entry, now: Time)
    requires EntryAtRest(e) && e.row.status == Failed && e.row.retryCount >= e.row.maxRetries
    ensures EntryAtRest(Entry(e.row.(status := Exhausted, completedAt := Some(now)), e.saved + [Exhausted], e.calls))
  {
    PathExtends(e.saved, Exhausted);
  }

  /** Executing a request for a new key: one row, one adapter call, one answer. */
  lemma ExecuteNewKey(g: Gateway, newId: TxId, q: Request, adapter: Adapter, now: Time)
    requires AtRest(g) && newId !in g.rows && q.key !in g.byKey
    ensures var t := NewTx(newId, q.objectType, q.objectId, q.key, q.payload);
            Execute(g, newId, q, adapter, now)
            == (Put(g, newId, Sent(Entry(ToRow(t), [], []), t, adapter, q.payload, now)),
                ResultOf(adapter(q.key, 0, q.payload)))
    ensures AtRest(Execute(g, newId, q, adapter, now).0)
  {
    var t := NewTx(newId, q.objectType, q.objectId, q.key, q.payload);
    SendingWritesOneRow(g, t, adapter, q.payload, now);
    assert Sent(EntryOf(g, t), t, adapter, q.payload, now) == Sent(Entry(ToRow(t), [], []), t, adapter, q.payload, now);
    FirstSentIsAtRest(t, adapter, now);
    PutKeepsRest(g, newId, Sent(Entry(ToRow(t), [], []), t, adapter, q.payload, now));
  }

  /** Executing a request again, or retrying its row, while it is failed and has budget left: one
      more adapter call on the same row. */
  lemma SendAgain(g: Gateway, id: TxId, adapter: Adapter, payload: Payload, now: Time)
    requires AtRest(g) && id in g.rows && ToDomain(id, g.rows[id].row).CanRetry()
    ensures var e := g.rows[id];
            var t := Resumed(id, e.row, payload);
            && Invoke(Save(g, t), t, adapter, payload, now)
               == (Put(g, id, Sent(e, t, adapter, payload, now)), ResultOf(adapter(t.key, |e.calls|, payload)))
            && AtRest(Put(g, id, Sent(e, t, adapter, payload, now)))
  {
    var t := Resumed(id, g.rows[id].row, payload);
    SendingWritesOneRow(g, t, adapter, payload, now);
    assert Invoke(Save(g, t), t, adapter, payload, now)
        == Invoke(Save(Save(g, t), t.(status := InProgress)), t.(status := InProgress), adapter, payload, now);
    ResentIsAtRest(g.rows[id], id, adapter, payload, now);
    PutKeepsRest(g, id, Sent(g.rows[id], t, adapter, payload, now));
  }

  lemma ExecuteKeepsRest(g: Gateway, newId: TxId, q: Request, adapter: Adapter, now: Time)
    requires AtRest(g) && newId !in g.rows
    ensures AtRest(Execute(g, newId, q, adapter, now).0)
  {
    if q.key !in g.byKey {
      ExecuteNewKey(g, newId, q, adapter, now);
    } else if ToDomain(g.byKey[q.key], g.rows[g.byKey[q.key]].row).CanRetry() {
      SendAgain(g, g.byKey[q.key], adapter, q.payload, now);
    }
  }

  lemma RetryKeepsRest(g: Gateway, id: TxId, adapter: Adapter, now: Time)
    requires AtRest(g)
    ensures AtRest(Retry(g, id, adapter, now).0)
  {
    if id in g.rows {
      var e := g.rows[id];
      if ToDomain(id, e.row).CanRetry() {
        SendAgain(g, id, adapter, e.row.request, now);
      } else if e.row.status == Failed {
        SpentIsAtRest(e, now);
        PutKeepsRest(g, id, Entry(e.row.(status := Exhausted, completedAt := Some(now)), e.saved + [Exhausted], e.calls));
      }
    }
  }

  lemma SweepKeepsRest(g: Gateway, pending: seq<Tx>, adapters: map<ObjectType, Adapter>, now: Time)
    requires AtRest(g)
    ensures AtRest(SweepOver(g, pending, adapters, now).0)
    decreases |pending|
  {
    hide AtRest, Retry;
    if pending != [] && pending[0].objectType !in adapters {
      SweepKeepsRest(g, pending[1..], adapters, now);
    } else if pending != [] {
      var (after, r) := Retry(g, pending[0].id, adapters[pending[0].objectType], now);
      RetryKeepsRest(g, pending[0].id, adapters[pending[0].objectType], now);
      SweepKeepsRest(after, pending[1..], adapters, now);
    }
  }
}
