/** What one retry sweep does to every row, whatever order the table lists them in. */
module SapSweepLaws {
  import opened Common
  import opened SapTransactions
  import opened SapGatewaySpec
  import opened SapGatewayLaws
  import opened SapGatewayRuns

  /** The entry in which a retry leaves a failed row. */
  function Retried(id: TxId, e: Entry, adapter: Adapter, now: Time): Entry {
    if ToDomain(id, e.row).CanRetry() then Sent(e, Resumed(id, e.row, e.row.request), adapter, e.row.request, now)
    else Entry(e.row.(status := Exhausted, completedAt := Some(now)), e.saved + [Exhausted], e.calls)
  }

  /** The entry in which a sweep leaves a row. */
  function Swept(id: TxId, e: Entry, adapters: map<ObjectType, Adapter>, now: Time): Entry {
    if Listed(e.row) && e.row.objectType in adapters then Retried(id, e, adapters[e.row.objectType], now) else e
  }

  /** Retrying the row makes the adapter raise something other than the integration error. */
  predicate Crashes(id: TxId, e: Entry, adapters: map<ObjectType, Adapter>) {
    && e.row.objectType in adapters && ToDomain(id, e.row).CanRetry()
    && adapters[e.row.objectType](e.row.key, |e.calls|, e.row.request).Crashed?
  }

  lemma RetryOfFailed(g: Gateway, id: TxId, adapters: map<ObjectType, Adapter>, now: Time)
    requires AtRest(g) && id in g.rows && g.rows[id].row.status == Failed && g.rows[id].row.objectType in adapters
    ensures var adapter := adapters[g.rows[id].row.objectType];
            var (after, r) := Retry(g, id, adapter, now);
            && after == Put(g, id, Retried(id, g.rows[id], adapter, now))
            && (CaughtBySweep(r) <==> !Crashes(id, g.rows[id], adapters))
            && (Crashes(id, g.rows[id], adapters) ==> r == AdapterCrash)
  {
    var e := g.rows[id];
    if ToDomain(id, e.row).CanRetry() {
      hide AtRest, Invoke, Save;
      SendAgain(g, id, adapters[e.row.objectType], e.row.request, now);
    }
  }

  /** A duplicate-free part of a listing: the rows a sweep has still to visit. */
  ghost predicate StillToVisit(g: Gateway, pending: seq<Tx>) {
    && (forall i :: 0 <= i < |pending| ==>
          && pending[i].id in g.rows && Listed(g.rows[pending[i].id].row)
          && pending[i] == ToDomain(pending[i].id, g.rows[pending[i].id].row))
    && (forall i, j :: 0 <= i < j < |pending| ==> pending[i].id != pending[j].id)
  }

  /** The sweep gets as far as position `n`: no retry before it crashes. */
  ghost predicate Reaches(g: Gateway, pending: seq<Tx>, adapters: map<ObjectType, Adapter>, n: nat) {
    forall j :: 0 <= j < n <= |pending| && pending[j].id in g.rows ==>
      !Crashes(pending[j].id, g.rows[pending[j].id], adapters)
  }

  ghost predicate Visits(pending: seq<Tx>, id: TxId) {
    exists i :: 0 <= i < |pending| && pending[i].id == id
  }

  /** What a sweep leaves: it works through its listing row by row and stops at the first crash. */
  ghost predicate SweptUntilCrash(g: Gateway, pending: seq<Tx>, adapters: map<ObjectType, Adapter>, now: Time,
                                  after: Gateway, stopped: Option<CallResult>) {
    && after.rows.Keys == g.rows.Keys
    && (stopped == None <==> Reaches(g, pending, adapters, |pending|))
    && (stopped.Some? ==> stopped == Some(AdapterCrash))
    && (forall i :: 0 <= i < |pending| && pending[i].id in g.rows ==>
          var id := pending[i].id;
          after.rows[id] == if Reaches(g, pending, adapters, i) then Swept(id, g.rows[id], adapters, now) else g.rows[id])
    && (forall id :: id in g.rows && !Visits(pending, id) ==> after.rows[id] == g.rows[id])
  }

  lemma {:induction false} SweepVisits(g: Gateway, pending: seq<Tx>, adapters: map<ObjectType, Adapter>, now: Time)
    requires AtRest(g) && StillToVisit(g, pending)
    ensures var (after, stopped) := SweepOver(g, pending, adapters, now);
            SweptUntilCrash(g, pending, adapters, now, after, stopped)
    decreases |pending|
  {
    hide AtRest, Retry, Put, Swept, Retried, Crashes;
    if pending != [] {
      hide SweepOver, SweptUntilCrash, StillToVisit;
      var rest := pending[1..];
      var next, crashed := VisitOne(g, pending, adapters, now);
      if crashed {
        StopsHere(g, pending, adapters, now, next);
      } else {
        OneLessToVisit(g, pending, next);
        SweepVisits(next, rest, adapters, now);
        var (after, stopped) := SweepOver(next, rest, adapters, now);
        GoesOn(g, pending, adapters, now, next, after, stopped);
      }
    }
  }

  lemma OneLessToVisit(g: Gateway, pending: seq<Tx>, next: Gateway)
    requires StillToVisit(g, pending) && pending != []
    requires next.rows.Keys == g.rows.Keys && forall id :: id in g.rows && id != pending[0].id ==> next.rows[id] == g.rows[id]
    ensures StillToVisit(next, pending[1..])
  {
    var rest := pending[1..];
    assert forall i :: 0 <= i < |rest| ==> rest[i] == pending[i + 1] && rest[i].id != pending[0].id;
  }

  lemma StopsHere(g: Gateway, pending: seq<Tx>, adapters: map<ObjectType, Adapter>, now: Time, next: Gateway)
    requires StillToVisit(g, pending) && pending != [] && Crashes(pending[0].id, g.rows[pending[0].id], adapters)
    requires next.rows == g.rows[pending[0].id := Swept(pending[0].id, g.rows[pending[0].id], adapters, now)]
    ensures SweptUntilCrash(g, pending, adapters, now, next, Some(AdapterCrash))
  {
    hide Swept, Crashes;
    assert forall i :: 0 < i <= |pending| ==> !Reaches(g, pending, adapters, i);
  }

  lemma GoesOn(g: Gateway, pending: seq<Tx>, adapters: map<ObjectType, Adapter>, now: Time, next: Gateway, after: Gateway,
               stopped: Option<CallResult>)
    requires StillToVisit(g, pending) && pending != [] && !Crashes(pending[0].id, g.rows[pending[0].id], adapters)
    requires next.rows == g.rows[pending[0].id := Swept(pending[0].id, g.rows[pending[0].id], adapters, now)]
    requires SweptUntilCrash(next, pending[1..], adapters, now, after, stopped)
    ensures SweptUntilCrash(g, pending, adapters, now, after, stopped)
  {
    hide Swept, Crashes, Reaches;
    var id, rest := pending[0].id, pending[1..];
    OneLessToVisit(g, pending, next);
    forall n | 0 < n <= |pending| ensures Reaches(g, pending, adapters, n) <==> Reaches(next, rest, adapters, n - 1) {
      ReachesOneLess(g, pending, adapters, next, n);
    }
    VisitsOneMore(pending);
    forall i | 0 <= i < |pending|
      ensures after.rows[pending[i].id] == if Reaches(g, pending, adapters, i)
                then Swept(pending[i].id, g.rows[pending[i].id], adapters, now) else g.rows[pending[i].id] {
      if i == 0 {
        ReachesTheFirst(g, pending, adapters);
        assert !Visits(rest, id);
      } else {
        assert rest[i - 1] == pending[i] && rest[i - 1].id in next.rows;
      }
    }
  }

  lemma ReachesTheFirst(g: Gateway, pending: seq<Tx>, adapters: map<ObjectType, Adapter>)
    ensures Reaches(g, pending, adapters, 0)
  {
  }

  lemma VisitsOneMore(pending: seq<Tx>)
    requires pending != []
    ensures forall id :: !Visits(pending, id) ==> id != pending[0].id && !Visits(pending[1..], id)
    ensures (forall i :: 0 < i < |pending| ==> pending[i].id != pending[0].id) ==> !Visits(pending[1..], pending[0].id)
  {
    forall id | Visits(pending[1..], id) ensures Visits(pending, id) {
      var i :| 0 <= i < |pending[1..]| && pending[1..][i].id == id;
      assert pending[i + 1].id == id;
    }
  }

  lemma ReachesOneLess(g: Gateway, pending: seq<Tx>, adapters: map<ObjectType, Adapter>, next: Gateway, n: nat)
    requires StillToVisit(g, pending) && 0 < n <= |pending|
    requires !Crashes(pending[0].id, g.rows[pending[0].id], adapters)
    requires next.rows.Keys == g.rows.Keys && forall id :: id in g.rows && id != pending[0].id ==> next.rows[id] == g.rows[id]
    ensures Reaches(g, pending, adapters, n) <==> Reaches(next, pending[1..], adapters, n - 1)
  {
    hide Crashes;
    var rest := pending[1..];
    assert forall i :: 0 < i < |pending| ==> pending[i] == rest[i - 1];
    if Reaches(next, rest, adapters, n - 1) {
      forall j | 0 <= j < n && pending[j].id in g.rows ensures !Crashes(pending[j].id, g.rows[pending[j].id], adapters) {
        assert j > 0 ==> rest[j - 1].id in next.rows;
      }
    }
  }

  lemma VisitOne(g: Gateway, pending: seq<Tx>, adapters: map<ObjectType, Adapter>, now: Time)
    returns (next: Gateway, crashed: bool)
    requires AtRest(g) && StillToVisit(g, pending) && pending != []
    ensures var id := pending[0].id;
            && id in g.rows && AtRest(next) && next.rows == g.rows[id := Swept(id, g.rows[id], adapters, now)]
            && (crashed <==> Crashes(id, g.rows[id], adapters))
    ensures SweepOver(g, pending, adapters, now)
         == if crashed then (next, Some(AdapterCrash)) else SweepOver(next, pending[1..], adapters, now)
  {
    hide AtRest, Retry, Retried, Crashes;
    var id, t := pending[0].id, pending[0].objectType;
    crashed := Crashes(id, g.rows[id], adapters);
    if t in adapters {
      RetryOfFailed(g, id, adapters, now);
      RetryKeepsRest(g, id, adapters[t], now);
      next := Retry(g, id, adapters[t], now).0;
    } else {
      next := g;
      assert g.rows[id := g.rows[id]] == g.rows;
      UnregisteredIsCalm(id, g.rows[id], adapters);
    }
  }

  lemma UnregisteredIsCalm(id: TxId, e: Entry, adapters: map<ObjectType, Adapter>)
    requires e.row.objectType !in adapters
    ensures !Crashes(id, e, adapters)
  {
  }

  /** One sweep over a full listing raises exactly when some retry crashes; if it does not, it does to
      each row what `Swept` says. */
  lemma SweepIsRowwise(g: Gateway, pending: seq<Tx>, adapters: map<ObjectType, Adapter>, now: Time)
    requires AtRest(g) && IsPendingListing(g, pending)
    ensures var (after, stopped) := SweepOver(g, pending, adapters, now);
            && SweptUntilCrash(g, pending, adapters, now, after, stopped)
            && (stopped == None <==> forall id :: id in g.rows && Listed(g.rows[id].row) ==> !Crashes(id, g.rows[id], adapters))
            && (stopped == None ==> forall id :: id in g.rows ==> after.rows[id] == Swept(id, g.rows[id], adapters, now))
  {
    hide AtRest, Retry, Retried, SweepOver, Crashes;
    assert StillToVisit(g, pending);
    SweepVisits(g, pending, adapters, now);
    forall id | id in g.rows && Listed(g.rows[id].row) ensures Visits(pending, id) {
      var i :| 0 <= i < |pending| && pending[i] == ToDomain(id, g.rows[id].row);
      assert pending[i].id == id;
    }
  }

  /** What a visit promises for one row: if its type is registered it is sent exactly once more and rests
      in SUCCESS or FAILED, or in IN_PROGRESS when that very call crashes; if not it is untouched. */
  ghost predicate SweptOnce(before: Entry, after: Entry, adapters: map<ObjectType, Adapter>) {
    if before.row.objectType in adapters then
      var reply := adapters[before.row.objectType](before.row.key, |before.calls|, before.row.request);
      && after.calls == before.calls + [Call(before.row.request, reply)]
      && after.row.retryCount == before.row.retryCount + 1
      && after.row.status == match reply case Reply(_, _) => Success case Refused(_) => Failed case Crashed => InProgress
    else
      after == before
  }

  /** In every run, and for all adapters: a sweep visits its listing in order up to the first crash, if
      any; it treats each row it visits once and touches no other. */
  lemma SweepInRun(ops: seq<Op>, pending: seq<Tx>, adapters: map<ObjectType, Adapter>, now: Time)
    requires IsPendingListing(Run(ops), pending)
    ensures var g := Run(ops);
            var (after, stopped) := SweepOver(g, pending, adapters, now);
            && after.rows.Keys == g.rows.Keys
            && (stopped == None <==> Reaches(g, pending, adapters, |pending|))
            && (forall i :: 0 <= i < |pending| && pending[i].id in g.rows ==>
                  if Reaches(g, pending, adapters, i) then SweptOnce(g.rows[pending[i].id], after.rows[pending[i].id], adapters)
                  else after.rows[pending[i].id] == g.rows[pending[i].id])
            && (forall id :: id in g.rows && !Listed(g.rows[id].row) ==> after.rows[id] == g.rows[id])
  {
    hide AtRest, SweepOver, Step, Run, Crashes, Reaches;
    RunIsAtRest(ops);
    var g := Run(ops);
    SweepIsRowwise(g, pending, adapters, now);
    forall i | 0 <= i < |pending| && pending[i].id in g.rows
      ensures SweptOnce(g.rows[pending[i].id], Swept(pending[i].id, g.rows[pending[i].id], adapters, now), adapters) {
      assert Listed(g.rows[pending[i].id].row);
    }
  }

  /** What a completed sweep must have done to one row: a FAILED row with budget left, of a registered
      type, was sent once more, as it was; every other row was left alone. */
  ghost predicate RetriedIfDue(before: Entry, after: Entry, adapters: map<ObjectType, Adapter>, now: Time) {
    if before.row.status == Failed && before.row.retryCount < MAX_RETRY_ATTEMPTS && before.row.objectType in adapters then
      var reply := adapters[before.row.objectType](before.row.key, |before.calls|, before.row.request);
      && after.calls == before.calls + [Call(before.row.request, reply)]
      && !reply.Crashed?
      && Records(before.row, before.row.request, before.row.retryCount + 1, reply, now, after.row)
    else after == before
  }

  /** In every run, and for all adapters: a sweep that ends without raising retries exactly the rows that
      are due, each once. */
  lemma CompletedSweepRetriesWhatIsDue(ops: seq<Op>, sweep: Op)
    requires sweep.DoSweep? && Possible(Run(ops), sweep)
    requires SweepOver(Run(ops), sweep.pending, sweep.adapters, sweep.now).1 == None
    ensures var g, after := Run(ops), Run(ops + [sweep]);
            && after.rows.Keys == g.rows.Keys
            && forall id :: id in g.rows ==> RetriedIfDue(g.rows[id], after.rows[id], sweep.adapters, sweep.now)
  {
    hide SweepOver, Run, AtRest;
    var g := Run(ops);
    RunIsAtRest(ops);
    RunOneMore(ops, sweep);
    SweepInRun(ops, sweep.pending, sweep.adapters, sweep.now);
    SweepIsRowwise(g, sweep.pending, sweep.adapters, sweep.now);
    forall id | id in g.rows ensures RetriedIfDue(g.rows[id], Run(ops + [sweep]).rows[id], sweep.adapters, sweep.now) {
      if Listed(g.rows[id].row) {
        var i := PositionOf(g, sweep.pending, id);
        ReachesEarlier(g, sweep.pending, sweep.adapters, i);
        NotCrashed(ops, id, sweep.adapters);
      }
    }
  }

  lemma NotCrashed(ops: seq<Op>, id: TxId, adapters: map<ObjectType, Adapter>)
    requires id in Run(ops).rows
    ensures var e := Run(ops).rows[id];
            Listed(e.row) && e.row.objectType in adapters && !Crashes(id, e, adapters)
            ==> !adapters[e.row.objectType](e.row.key, |e.calls|, e.row.request).Crashed?
  {
    hide Run;
    RunIsAtRest(ops);
  }

  /** Every row that a sweep would still list has been retried at least `n` times. */
  ghost predicate ListedAfter(g: Gateway, n: nat) {
    forall id :: id in g.rows && Listed(g.rows[id].row) ==> n <= g.rows[id].row.retryCount
  }

  lemma PositionOf(g: Gateway, pending: seq<Tx>, id: TxId) returns (i: nat)
    requires IsPendingListing(g, pending) && id in g.rows && Listed(g.rows[id].row)
    ensures i < |pending| && pending[i].id == id
  {
    i :| i < |pending| && pending[i] == ToDomain(id, g.rows[id].row);
  }

  lemma ReachesEarlier(g: Gateway, pending: seq<Tx>, adapters: map<ObjectType, Adapter>, i: nat)
    requires i < |pending|
    ensures Reaches(g, pending, adapters, |pending|) ==> Reaches(g, pending, adapters, i)
  {
  }

  lemma RunOneMore(ops: seq<Op>, op: Op)
    ensures Run(ops + [op]) == Step(Run(ops), op)
  {
    assert (ops + [op])[..|ops|] == ops;
  }

  lemma SweepRaisesFloor(ops: seq<Op>, pending: seq<Tx>, adapters: map<ObjectType, Adapter>, now: Time, n: nat)
    requires IsPendingListing(Run(ops), pending) && ListedAfter(Run(ops), n)
    requires forall t: ObjectType :: t in adapters
    ensures Run(ops + [DoSweep(pending, adapters, now)]) == SweepOver(Run(ops), pending, adapters, now).0
    ensures var stopped := SweepOver(Run(ops), pending, adapters, now).1;
            ListedAfter(Run(ops + [DoSweep(pending, adapters, now)]), if stopped == None then n + 1 else n)
  {
    hide SweepOver, IsPendingListing, Reaches, Run;
    assert Run(ops + [DoSweep(pending, adapters, now)]) == Step(Run(ops), DoSweep(pending, adapters, now)) by {
      RunOneMore(ops, DoSweep(pending, adapters, now));
    }
    var all := ops + [DoSweep(pending, adapters, now)];
    SweepInRun(ops, pending, adapters, now);
    var g, after := Run(ops), Run(all);
    forall id | id in after.rows && Listed(after.rows[id].row)
      ensures (if SweepOver(g, pending, adapters, now).1 == None then n + 1 else n) <= after.rows[id].row.retryCount {
      var i := PositionOf(g, pending, id);
      ReachesEarlier(g, pending, adapters, i);
    }
  }

  /** Sweeps made right after a run, each on the listing it finds and with an adapter for every type. */
  ghost predicate SweepsFollow(ops: seq<Op>, sweeps: seq<Op>)
    decreases |sweeps|
  {
    sweeps == [] ||
    var op := sweeps[0];
    && op.DoSweep? && Possible(Run(ops), op) && (forall t: ObjectType :: t in op.adapters)
    && SweepsFollow(ops + [op], sweeps[1..])
  }

  /** How many of the sweeps end without raising. */
  ghost function Completed(ops: seq<Op>, sweeps: seq<Op>): nat
    decreases |sweeps|
  {
    if sweeps == [] then 0 else
    var op := sweeps[0];
    (if op.DoSweep? && SweepOver(Run(ops), op.pending, op.adapters, op.now).1 == None then 1 else 0)
    + Completed(ops + [op], sweeps[1..])
  }

  lemma {:induction false} SweepsRaiseFloor(ops: seq<Op>, sweeps: seq<Op>, n: nat)
    requires SweepsFollow(ops, sweeps) && ListedAfter(Run(ops), n)
    ensures ListedAfter(Run(ops + sweeps), n + Completed(ops, sweeps))
    decreases |sweeps|
  {
    hide IsPendingListing, Step, ListedAfter, Run, SweepOver;
    if sweeps == [] {
      assert ops + sweeps == ops;
    } else {
      var op := sweeps[0];
      SweepRaisesFloor(ops, op.pending, op.adapters, op.now, n);
      assert op == DoSweep(op.pending, op.adapters, op.now);
      assert ops + sweeps == ops + [op] + sweeps[1..];
      SweepsRaiseFloor(ops + [op], sweeps[1..], if SweepOver(Run(ops), op.pending, op.adapters, op.now).1 == None then n + 1 else n);
    }
  }

  /** After sweeps in a row with an adapter for every object type, three of which end without raising,
      no row is left to retry. */
  lemma ThreeSweepsFinish(ops: seq<Op>, sweeps: seq<Op>, id: TxId)
    requires SweepsFollow(ops, sweeps) && Completed(ops, sweeps) >= MAX_RETRY_ATTEMPTS
    requires id in Run(ops + sweeps).rows
    ensures var row := Run(ops + sweeps).rows[id].row;
            row.status != Failed || row.retryCount >= MAX_RETRY_ATTEMPTS == 3
  {
    hide Step, SweepsFollow, Completed;
    SweepsRaiseFloor(ops, sweeps, 0);
  }
}
