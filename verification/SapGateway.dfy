/** The transaction repository and the gateway itself, which load, mutate and save transaction objects. */
module SapGateway {
  import opened Common
  import opened SapTransactions
  import opened SapGatewaySpec

  class SapTransactionRepository {
    /** The table with its history variables, and the unique index. */
    var store: Gateway

    constructor ()
      ensures store == EMPTY_GATEWAY
    {
      store := EMPTY_GATEWAY;
    }

    /** Loads a fresh copy: changing it does not change the table. */
    method GetById(id: TxId) returns (found: Option<SapTransaction>)
      ensures found.Some? <==> id in store.rows
      ensures found.Some? ==> fresh(found.value) && found.value.View() == ToDomain(id, store.rows[id].row)
    {
      if id !in store.rows {
        return None;
      }
      var t := new SapTransaction(ToDomain(id, store.rows[id].row));
      found := Some(t);
    }

    method GetByIdempotencyKey(key: string) returns (found: Option<SapTransaction>)
      requires IndexOk(store)
      ensures found.Some? <==> key in store.byKey
      ensures found.Some? ==>
                && fresh(found.value)
                && found.value.View() == ToDomain(store.byKey[key], store.rows[store.byKey[key]].row)
    {
      if key !in store.byKey {
        return None;
      }
      var t := new SapTransaction(ToDomain(store.byKey[key], store.rows[store.byKey[key]].row));
      found := Some(t);
    }

    /** The rows a sweep may retry, in whatever order the table yields them. */
    method ListPendingForRetry() returns (pending: seq<Tx>)
      ensures IsPendingListing(store, pending)
      ensures forall id :: (exists i :: 0 <= i < |pending| && pending[i].id == id)
                <==> id in store.rows && store.rows[id].row.status == Failed && store.rows[id].row.retryCount < 3
    {
      pending := [];
      var left := store.rows.Keys;
      while left != {}
        invariant left <= store.rows.Keys
        invariant forall i :: 0 <= i < |pending| ==>
                    && pending[i].id in store.rows && pending[i].id !in left
                    && Listed(store.rows[pending[i].id].row)
                    && pending[i] == ToDomain(pending[i].id, store.rows[pending[i].id].row)
        invariant forall i, j :: 0 <= i < j < |pending| ==> pending[i].id != pending[j].id
        invariant forall id :: id in store.rows && id !in left && Listed(store.rows[id].row) ==>
                    ToDomain(id, store.rows[id].row) in pending
        decreases left
      {
        var id :| id in left;
        left := left - {id};
        if Listed(store.rows[id].row) {
          pending := pending + [ToDomain(id, store.rows[id].row)];
        }
      }
    }

    /** Writes one row; refused when another row holds the key. */
    method Save(t: SapTransaction) returns (ok: bool)
      modifies this
      ensures ok <==> MayWrite(old(store), t.id, t.key)
      ensures store == if ok then SapGatewaySpec.Save(old(store), t.View()) else old(store)
    {
      ok := t.key in store.byKey ==> store.byKey[t.key] == t.id;
      if ok {
        store := SapGatewaySpec.Save(store, t.View());
      }
    }

    /** History only: notes that the adapter answered for this transaction. */
    method Log(t: SapTransaction, c: Call)
      modifies this
      ensures store == Logged(old(store), t.View(), c)
    {
      store := Logged(store, t.View(), c);
    }
  }

  class SapTransactionManager {
    const repo: SapTransactionRepository

    constructor (repository: SapTransactionRepository)
      ensures repo == repository
    {
      repo := repository;
    }

    method Execute(newId: TxId, q: Request, adapter: Adapter, now: Time) returns (r: CallResult)
      requires IndexOk(repo.store) && newId !in repo.store.rows
      modifies repo
      ensures (repo.store, r) == SapGatewaySpec.Execute(old(repo.store), newId, q, adapter, now)
    {
      var existing := repo.GetByIdempotencyKey(q.key);
      if existing.Some? {
        r := HandleExisting(existing.value, q.payload, adapter, now);
        return;
      }
      var t := CreateAndStart(newId, q);
      r := Invoke(t, adapter, q.payload, now);
    }

    method Retry(id: TxId, adapter: Adapter, now: Time) returns (r: CallResult)
      requires IndexOk(repo.store)
      modifies repo
      ensures (repo.store, r) == SapGatewaySpec.Retry(old(repo.store), id, adapter, now)
    {
      var found := repo.GetById(id);
      if found.None? {
        return NotFound;
      }
      var t := found.value;
      if !t.View().CanRetry() {
        var marked := t.MarkExhausted(now);
        if !marked {
          return InvalidTransition;
        }
        var saved := repo.Save(t);
        return RetryExhausted;
      }
      var prepared := t.PrepareRetry();
      var saved := repo.Save(t);
      r := Invoke(t, adapter, t.request, now);
    }

    /** Retries what the table lists. An exception that the sweep does not catch stops it. */
    method RetryAllPending(adapters: map<ObjectType, Adapter>, now: Time)
      returns (stopped: Option<CallResult>, ghost listing: seq<Tx>)
      requires IndexOk(repo.store)
      modifies repo
      ensures IsPendingListing(old(repo.store), listing)
      ensures (repo.store, stopped) == SweepOver(old(repo.store), listing, adapters, now)
    {
      var pending := repo.ListPendingForRetry();
      listing := pending;
      var i := 0;
      while i < |pending|
        invariant 0 <= i <= |pending|
        invariant IndexOk(repo.store)
        invariant SweepOver(old(repo.store), pending, adapters, now) == SweepOver(repo.store, pending[i..], adapters, now)
      {
        assert pending[i..][1..] == pending[i + 1..];
        if pending[i].objectType in adapters {
          RetryKeepsIndex(repo.store, pending[i].id, adapters[pending[i].objectType], now);
          var r := Retry(pending[i].id, adapters[pending[i].objectType], now);
          if !CaughtBySweep(r) {
            return Some(r), listing;
          }
        }
        i := i + 1;
      }
      stopped := None;
    }

    method HandleExisting(t: SapTransaction, payload: Payload, adapter: Adapter, now: Time) returns (r: CallResult)
      requires IndexOk(repo.store) && t.id in repo.store.rows
      requires t.View() == ToDomain(t.id, repo.store.rows[t.id].row)
      modifies repo, t
      ensures (repo.store, r)
           == SapGatewaySpec.HandleExisting(old(repo.store), old(t.View()), payload, adapter, now)
    {
      assert MayWrite(repo.store, t.id, t.key);
      hide IndexOk, MayWrite, SapGatewaySpec.Invoke, SapGatewaySpec.Save;
      if t.status == Success {
        return Returned(t.response.GetOr(map[]), OrEmpty(t.document));
      }
      if t.status in {Pending, InProgress, Retrying} {
        return IdempotencyError;
      }
      if t.status == Exhausted {
        return RetryExhausted;
      }
      if !t.View().CanRetry() {
        return RetryExhausted;
      }
      var prepared := t.PrepareRetry();
      t.request := payload;
      assert t.View() == old(t.View()).(status := Retrying, retryCount := old(t.retryCount) + 1, request := payload);
      var saved := repo.Save(t);
      r := Invoke(t, adapter, payload, now);
    }

    method CreateAndStart(newId: TxId, q: Request) returns (t: SapTransaction)
      requires newId !in repo.store.rows && q.key !in repo.store.byKey
      modifies repo
      ensures fresh(t)
      ensures t.View() == NewTx(newId, q.objectType, q.objectId, q.key, q.payload).(status := InProgress)
      ensures repo.store
           == SapGatewaySpec.Save(SapGatewaySpec.Save(old(repo.store), t.View().(status := Pending)), t.View())
    {
      t := new SapTransaction(NewTx(newId, q.objectType, q.objectId, q.key, q.payload));
      var saved := repo.Save(t);
      var started := t.Start();
      saved := repo.Save(t);
    }

    method Invoke(t: SapTransaction, adapter: Adapter, payload: Payload, now: Time) returns (r: CallResult)
      requires t.status in {InProgress, Retrying}
      requires MayWrite(repo.store, t.id, t.key)
      modifies repo, t
      ensures (repo.store, r) == SapGatewaySpec.Invoke(old(repo.store), old(t.View()), adapter, payload, now)
    {
      if t.status == Retrying {
        t.status := InProgress;
        var saved := repo.Save(t);
      }
      var reply := adapter(t.key, |EntryOf(repo.store, t.View()).calls|, payload);
      repo.Log(t, Call(payload, reply));
      match reply
      case Refused(message) =>
        var failed := t.Fail(message);
        var saved := repo.Save(t);
        r := IntegrationError(message);
      case Reply(response, document) =>
        var succeeded := t.Succeed(response, OrNone(document), now);
        var saved := repo.Save(t);
        r := Returned(response, document);
      case Crashed =>
        r := AdapterCrash;
    }
  }

  lemma PutKeepsIndex(g: Gateway, id: TxId, e: Entry, key: string)
    requires IndexOk(g) && MayWrite(g, id, e.row.key) && MayWrite(g, id, key)
    ensures IndexOk(Put(g, id, e)) && MayWrite(Put(g, id, e), id, key)
  {
  }

  lemma SaveKeepsIndex(g: Gateway, t: Tx)
    requires IndexOk(g) && MayWrite(g, t.id, t.key)
    ensures IndexOk(SapGatewaySpec.Save(g, t)) && MayWrite(SapGatewaySpec.Save(g, t), t.id, t.key)
    ensures forall c :: IndexOk(Logged(g, t, c)) && MayWrite(Logged(g, t, c), t.id, t.key)
  {
    hide IndexOk, MayWrite, Put;
    var e := EntryOf(g, t);
    PutKeepsIndex(g, t.id, Entry(ToRow(t), e.saved + [t.status], e.calls), t.key);
    if t.id in g.rows {
      OwnKeyMayBeWritten(g, t.id);
    }
    forall c ensures IndexOk(Logged(g, t, c)) && MayWrite(Logged(g, t, c), t.id, t.key) {
      PutKeepsIndex(g, t.id, e.(calls := e.calls + [c]), t.key);
    }
  }

  lemma InvokeKeepsIndex(g: Gateway, t: Tx, adapter: Adapter, payload: Payload, now: Time)
    requires IndexOk(g) && MayWrite(g, t.id, t.key)
    ensures IndexOk(SapGatewaySpec.Invoke(g, t, adapter, payload, now).0)
  {
    hide IndexOk, MayWrite, SapGatewaySpec.Save, Logged;
    var started := t.(status := InProgress);
    SaveKeepsIndex(g, started);
    var ready := if t.status == Retrying then SapGatewaySpec.Save(g, started) else g;
    SaveKeepsIndex(ready, t);
    var c := Call(payload, adapter(t.key, |EntryOf(ready, t).calls|, payload));
    forall u: Tx | u.id == t.id && u.key == t.key ensures IndexOk(SapGatewaySpec.Save(Logged(ready, t, c), u)) {
      SaveKeepsIndex(Logged(ready, t, c), u);
    }
  }

  lemma OwnKeyMayBeWritten(g: Gateway, id: TxId)
    requires IndexOk(g) && id in g.rows
    ensures MayWrite(g, id, g.rows[id].row.key)
  {
  }

  lemma RetryKeepsIndex(g: Gateway, id: TxId, adapter: Adapter, now: Time)
    requires IndexOk(g)
    ensures IndexOk(SapGatewaySpec.Retry(g, id, adapter, now).0)
  {
    hide IndexOk, MayWrite, SapGatewaySpec.Save, SapGatewaySpec.Invoke;
    if id in g.rows {
      var t := ToDomain(id, g.rows[id].row);
      OwnKeyMayBeWritten(g, id);
      var resumed := t.(status := Retrying, retryCount := t.retryCount + 1);
      SaveKeepsIndex(g, resumed);
      SaveKeepsIndex(g, t.(status := Exhausted, completedAt := Some(now)));
      InvokeKeepsIndex(SapGatewaySpec.Save(g, resumed), resumed, adapter, t.request, now);
    }
  }
}
