/** The interleaved execute is the execute of the gateway: a caller that takes all its turns alone leaves
    the row, and gets the answer, that the gateway gives. */
module SapRaceAlone {
  import opened Common
  import opened SapTransactions
  import opened SapGatewaySpec
  import opened SapGatewayLaws
  import opened SapRace

  function RowFor(g: Gateway, key: string): Option<Tx> {
    if key in g.byKey && g.byKey[key] in g.rows then Some(ToDomain(g.byKey[key], g.rows[g.byKey[key]].row)) else None
  }

  function CallsFor(g: Gateway, key: string): nat {
    if key in g.byKey && g.byKey[key] in g.rows then |g.rows[g.byKey[key]].calls| else 0
  }

  /** The race is at the point where this caller is about to execute its request on the gateway. */
  predicate AboutTo(r: Race, draft: nat -> Tx, c: nat, g: Gateway, newId: TxId, q: Request) {
    && At(r, c).Idle? && r.row == RowFor(g, q.key)
    && draft(c) == NewTx(newId, q.objectType, q.objectId, q.key, q.payload)
  }

  /** A caller never needs more than five turns; further ones change nothing. */
  function FiveTurns(r: Race, draft: nat -> Tx, turn: Turn): Race {
    TakeTurn(TakeTurn(TakeTurn(TakeTurn(TakeTurn(r, draft, turn), draft, turn), draft, turn), draft, turn), draft, turn)
  }

  lemma SettledIsRowAfter(t: Tx, reply: AdapterReply, now: Time)
    ensures var started := t.(status := InProgress);
            ToDomain(t.id, RowAfter(t, reply, now))
            == if reply.Crashed? then ToDomain(t.id, ToRow(started))
               else ToDomain(t.id, ToRow(Settle(started, reply, now)))
  {
  }

  lemma CreatesAlone(r: Race, draft: nat -> Tx, turn: Turn)
    requires At(r, turn.caller).Idle? && r.row.None? && draft(turn.caller).status == Pending
    ensures var t, alone := draft(turn.caller), FiveTurns(r, draft, turn);
            && alone.row == Some(ToDomain(t.id, RowAfter(t, turn.reply, turn.now)))
            && At(alone, turn.caller) == Done(true, Some(ResultOf(turn.reply)))
  {
    var c, t := turn.caller, draft(turn.caller);
    var started := t.(status := InProgress);
    var r1 := TakeTurn(r, draft, turn);
    assert At(r1, c) == SawNothing && r1.row == None;
    var r2 := TakeTurn(r1, draft, turn);
    assert At(r2, c) == Created(t);
    var r3 := TakeTurn(r2, draft, turn);
    assert At(r3, c) == Started(started) && r3.row == Some(ToDomain(t.id, ToRow(started)));
    var r4 := TakeTurn(r3, draft, turn);
    assert At(r4, c) == Answered(started, turn.reply) && r4.row == r3.row;
    SettledIsRowAfter(t, turn.reply, turn.now);
  }

  lemma ResumesAlone(r: Race, draft: nat -> Tx, turn: Turn)
    requires At(r, turn.caller).Idle? && r.row.Some? && r.row.value.CanRetry()
    ensures var t, alone := ToResume(r.row.value, draft(turn.caller).request), FiveTurns(r, draft, turn);
            && alone.row == Some(ToDomain(t.id, RowAfter(t, turn.reply, turn.now)))
            && At(alone, turn.caller) == Done(false, Some(ResultOf(turn.reply)))
  {
    var c, t := turn.caller, ToResume(r.row.value, draft(turn.caller).request);
    var started := t.(status := InProgress);
    var r1 := TakeTurn(r, draft, turn);
    assert At(r1, c) == Resuming(t);
    var r2 := TakeTurn(r1, draft, turn);
    assert At(r2, c) == Resuming(started);
    var r3 := TakeTurn(r2, draft, turn);
    assert At(r3, c) == Restarted(started) && r3.row == Some(ToDomain(t.id, ToRow(started)));
    var r4 := TakeTurn(r3, draft, turn);
    assert At(r4, c) == AnsweredAgain(started, turn.reply) && r4.row == r3.row;
    SettledIsRowAfter(t, turn.reply, turn.now);
  }

  lemma AnswersAlone(r: Race, draft: nat -> Tx, turn: Turn)
    requires At(r, turn.caller).Idle? && r.row.Some? && !r.row.value.CanRetry()
    ensures var alone := FiveTurns(r, draft, turn);
            && alone.row == r.row && At(alone, turn.caller) == Done(false, Some(AnswerFrom(r.row.value)))
  {
    var r1 := TakeTurn(r, draft, turn);
    assert TakeTurn(r1, draft, turn) == r1;
  }

  lemma ResumedByGateway(g: Gateway, id: TxId, adapter: Adapter, payload: Payload, now: Time)
    requires id in g.rows
    ensures var e := g.rows[id];
            var t := ToResume(ToDomain(id, e.row), payload);
            Invoke(Save(g, t), t, adapter, payload, now)
            == (Put(g, id, Sent(e, t, adapter, payload, now)), ResultOf(adapter(t.key, |e.calls|, payload)))
  {
    var t := ToResume(ToDomain(id, g.rows[id].row), payload);
    SendingWritesOneRow(g, t, adapter, payload, now);
    assert Invoke(Save(g, t), t, adapter, payload, now)
        == Invoke(Save(Save(g, t), t.(status := InProgress)), t.(status := InProgress), adapter, payload, now);
  }

  /** Whatever else the race did before, a caller whose turns are not interleaved with others' does to the
      row, and answers, what the gateway's execute does on a table with that row. */
  lemma AloneIsExecute(r: Race, draft: nat -> Tx, c: nat, g: Gateway, newId: TxId, q: Request, adapter: Adapter, now: Time)
    requires IndexOk(g) && newId !in g.rows && AboutTo(r, draft, c, g, newId, q)
    ensures var alone := FiveTurns(r, draft, Turn(c, adapter(q.key, CallsFor(g, q.key), q.payload), now));
            var (after, result) := Execute(g, newId, q, adapter, now);
            && alone.row == RowFor(after, q.key)
            && At(alone, c).Done? && At(alone, c).answer == Some(result)
  {
    hide FiveTurns, Invoke, Save, Sent;
    var turn := Turn(c, adapter(q.key, CallsFor(g, q.key), q.payload), now);
    if r.row == None {
      CreatesAlone(r, draft, turn);
      var t := draft(c);
      SendingWritesOneRow(g, t, adapter, q.payload, now);
      SentRow(EntryOf(g, t), t, adapter, q.payload, now);
    } else if r.row.value.CanRetry() {
      ResumesAlone(r, draft, turn);
      var id := g.byKey[q.key];
      var t := ToResume(ToDomain(id, g.rows[id].row), q.payload);
      ResumedByGateway(g, id, adapter, q.payload, now);
      SentRow(g.rows[id], t, adapter, q.payload, now);
    } else {
      AnswersAlone(r, draft, turn);
    }
  }

  lemma SentRow(e: Entry, t: Tx, adapter: Adapter, payload: Payload, now: Time)
    ensures Sent(e, t, adapter, payload, now).row == RowAfter(t, adapter(t.key, |e.calls|, payload), now)
    ensures RowAfter(t, adapter(t.key, |e.calls|, payload), now).key == t.key
  {
  }
}
