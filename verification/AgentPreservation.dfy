/** The consumer side: every step of a consumer keeps the invariant, also when several consumers
    interleave between the SELECT and the INSERT of `_apply_once`. */
module AgentPreservation {
  import opened Events
  import opened Protocol
  import opened Invariant

  // ---------------------------------------------------------------- the store

  /** The primary key on `event_id` refuses exactly the events that are already applied. */
  lemma RecordedIffApplied(issued: map<Uuid, Key>, counters: map<Uuid, nat>, history: History, db: AgentDb, e: Event)
    requires HistoryOk(issued, counters, history) && DbOk(history, db) && Durable(history, e)
    ensures Recorded(db, e.id) <==> Applied(db, e)
  {
    var x := e.execution;
    assert DbRowsOk(history, db, x);
    assert Fits(issued, Of(history, x)[e.sequence - 1], x, e.sequence - 1 + 1);
    if Applied(db, e) {
      var rows := Rows(Of(history, x)[..LastSequence(db, x)]);
      assert rows[e.sequence - 1] == RowOf(e);
      RowsOfMember(db.consumed, RowOf(e), x);
    }
    if Recorded(db, e.id) {
      var i :| 0 <= i < |db.consumed| && db.consumed[i].eventId == e.id;
      RecordedSlot(issued, counters, history, db, i);
    }
  }

  /** A consumed row sits in the slot its id was drawn for. */
  lemma RecordedSlot(issued: map<Uuid, Key>, counters: map<Uuid, nat>, history: History, db: AgentDb, i: nat)
    requires HistoryOk(issued, counters, history) && DbOk(history, db) && i < |db.consumed|
    ensures var row := db.consumed[i];
      && row.eventId in issued
      && issued[row.eventId].execution == row.execution
      && issued[row.eventId].sequence <= LastSequence(db, row.execution)
  {
    var row := db.consumed[i];
    var y := row.execution;
    assert DbRowsOk(history, db, y);
    RowsOfMember(db.consumed, row, y);
    var rows := Rows(Of(history, y)[..LastSequence(db, y)]);
    var j :| 0 <= j < |rows| && rows[j] == row;
    assert Fits(issued, Of(history, y)[j], y, j + 1);
  }

  lemma RecordSame(history: History, db: AgentDb, e: Event)
    requires DbRowsOk(history, db, e.execution) && Durable(history, e)
    requires e.sequence == LastSequence(db, e.execution) + 1
    ensures DbRowsOk(history, Record(db, e), e.execution)
  {
    var x := e.execution;
    var n := LastSequence(db, x);
    RowsOfAppend(db.consumed, RowOf(e), x);
    assert Of(history, x)[..n + 1] == Of(history, x)[..n] + [e];
    assert Rows(Of(history, x)[..n + 1]) == Rows(Of(history, x)[..n]) + [RowOf(e)];
  }

  lemma RecordOther(history: History, db: AgentDb, e: Event, y: Uuid)
    requires DbRowsOk(history, db, y) && y != e.execution
    ensures DbRowsOk(history, Record(db, e), y)
  {
    RowsOfAppend(db.consumed, RowOf(e), y);
    assert RowsOf(db.consumed, y) + [] == RowsOf(db.consumed, y);
  }

  /** The write transaction, reached on a possibly stale SELECT, applies the next event or nothing. */
  lemma WriteKeeps(issued: map<Uuid, Key>, counters: map<Uuid, nat>, history: History, db: AgentDb, e: Event, last: nat)
    requires HistoryOk(issued, counters, history) && DbOk(history, db) && Durable(history, e)
    requires last <= LastSequence(db, e.execution) && e.sequence == last + 1
    ensures DbOk(history, Write(db, e)) && Applied(Write(db, e), e)
    ensures Write(db, e) == db || e.sequence == LastSequence(db, e.execution) + 1
    ensures forall y :: LastSequence(db, y) <= LastSequence(Write(db, e), y)
  {
    RecordedIffApplied(issued, counters, history, db, e);
    if !Recorded(db, e.id) {
      assert Write(db, e) == Record(db, e);
      forall y ensures DbRowsOk(history, Record(db, e), y) {
        assert DbRowsOk(history, db, y);
        if y == e.execution {
          RecordSame(history, db, e);
        } else {
          RecordOther(history, db, e, y);
        }
      }
    }
  }

  // ------------------------------------------------------------ group and ACKs

  lemma DbGrows(stream: seq<Event>, group: Group, db: AgentDb, after: AgentDb, consumers: map<nat, Consumer>)
    requires AckedOk(stream, group, db) && ConsumersOk(stream, group, db, consumers)
    requires forall y :: LastSequence(db, y) <= LastSequence(after, y)
    ensures AckedOk(stream, group, after) && ConsumersOk(stream, group, after, consumers)
  {
    forall i | i in group.acked && i < |stream| ensures Applied(after, stream[i]) {
      assert Applied(db, stream[i]);
    }
    forall c | c in consumers ensures ConsumerOk(stream, group, after, consumers[c]) {
      assert ConsumerOk(stream, group, db, consumers[c]);
    }
  }

  lemma TrimKeeps(s: State, upTo: nat)
    requires Inv(s) && s.trimmed <= upTo <= |s.stream|
    ensures Inv(s.(trimmed := upTo))
  {
  }

  lemma CreateGroupKeeps(s: State, fromStart: bool)
    requires Inv(s) && !s.group.created
    ensures Inv(GroupCreated(s, fromStart))
  {
    var t := GroupCreated(s, fromStart);
    forall c | c in t.consumers ensures ConsumerOk(t.stream, t.group, t.db, t.consumers[c]) {
      assert ConsumerOk(s.stream, s.group, s.db, s.consumers[c]);
      assert s.consumers[c].queue == [];
    }
  }

  lemma DeliverGroup(stream: seq<Event>, trimmed: nat, group: Group, lo: nat, hi: nat)
    requires GroupOk(stream, trimmed, group) && group.created
    requires lo == Max(group.delivered, trimmed) && lo <= hi <= |stream|
    ensures GroupOk(stream, trimmed, group.(delivered := hi, pending := group.pending + ToSet(Range(lo, hi))))
  {
    forall i ensures i in ToSet(Range(lo, hi)) <==> lo <= i < hi {
      if lo <= i < hi {
        assert Range(lo, hi)[i - lo] == i;
      }
    }
  }

  lemma DeliverKeeps(s: State, c: nat, count: nat)
    requires Inv(s) && CanFetch(s, c)
    ensures Inv(Delivered(s, c, count))
  {
    var t := Delivered(s, c, count);
    var lo := Max(s.group.delivered, s.trimmed);
    DeliverGroup(s.stream, s.trimmed, s.group, lo, t.group.delivered);
    forall d | d in t.consumers ensures ConsumerOk(t.stream, t.group, t.db, t.consumers[d]) {
      if d != c {
        assert ConsumerOk(s.stream, s.group, s.db, s.consumers[d]);
      }
    }
  }

  lemma ClaimKeeps(s: State, c: nat, ids: seq<nat>)
    requires Inv(s) && CanClaim(s, c, ids)
    ensures Inv(s.(consumers := s.consumers[c := Consumer(ids, Waiting)]))
  {
    assert ConsumerOk(s.stream, s.group, s.db, Consumer(ids, Waiting));
  }

  lemma ReadLastKeeps(s: State, c: nat)
    requires Inv(s) && Handling(s, c)
    ensures Inv(LastRead(s, c))
  {
    assert ConsumerOk(s.stream, s.group, s.db, s.consumers[c]);
  }

  lemma TailOk(stream: seq<Event>, group: Group, db: AgentDb, consumer: Consumer)
    requires ConsumerOk(stream, group, db, consumer) && consumer.queue != []
    ensures ConsumerOk(stream, group, db, Consumer(consumer.queue[1..], Waiting))
  {
  }

  lemma SetConsumerKeeps(s: State, c: nat, consumer: Consumer)
    requires Inv(s) && ConsumerOk(s.stream, s.group, s.db, consumer)
    ensures Inv(s.(consumers := s.consumers[c := consumer]))
  {
  }

  lemma WrittenKeeps(s: State, e: Event, last: nat)
    requires Inv(s) && Durable(s.history, e) && last <= LastSequence(s.db, e.execution) && e.sequence == last + 1
    ensures Inv(s.(db := Write(s.db, e))) && Applied(Write(s.db, e), e)
  {
    WriteKeeps(s.issued, s.counters, s.history, s.db, e, last);
    DbGrows(s.stream, s.group, s.db, Write(s.db, e), s.consumers);
  }

  lemma SettleKeeps(s: State, c: nat)
    requires Inv(s) && Handling(s, c) && s.consumers[c].phase.Read?
    ensures Inv(AfterSettle(s, c))
  {
    var consumer := s.consumers[c];
    var event := s.stream[consumer.queue[0]];
    assert ConsumerOk(s.stream, s.group, s.db, consumer);
    match Judge(event.sequence, consumer.phase.last) {
      case Duplicate =>
        SetConsumerKeeps(s, c, consumer.(phase := Settled));
      case Gap =>
        TailOk(s.stream, s.group, s.db, consumer);
        SetConsumerKeeps(s, c, Consumer(consumer.queue[1..], Waiting));
      case Next =>
        WrittenKeeps(s, event, consumer.phase.last);
        SetConsumerKeeps(s.(db := Write(s.db, event)), c, consumer.(phase := Settled));
    }
  }

  lemma AckGroup(stream: seq<Event>, trimmed: nat, group: Group, db: AgentDb, id: nat)
    requires GroupOk(stream, trimmed, group) && AckedOk(stream, group, db) && id < |stream| && Applied(db, stream[id])
    ensures var after := group.(pending := group.pending - {id},
                                acked := if id in group.pending then group.acked + {id} else group.acked);
      GroupOk(stream, trimmed, after) && AckedOk(stream, after, db)
  {
  }

  lemma AckKeeps(s: State, c: nat)
    requires Inv(s) && Handling(s, c) && s.consumers[c].phase.Settled?
    ensures Inv(Acked(s, c))
  {
    var consumer := s.consumers[c];
    assert ConsumerOk(s.stream, s.group, s.db, consumer);
    AckGroup(s.stream, s.trimmed, s.group, s.db, consumer.queue[0]);
    TailOk(s.stream, s.group, s.db, consumer);
    var mid := s.(group := Acked(s, c).group);
    forall d | d in s.consumers ensures ConsumerOk(s.stream, mid.group, s.db, s.consumers[d]) {
      assert ConsumerOk(s.stream, s.group, s.db, s.consumers[d]);
    }
    SetConsumerKeeps(mid, c, Consumer(consumer.queue[1..], Waiting));
  }

  lemma CrashConsumerKeeps(s: State, c: nat)
    requires Inv(s)
    ensures Inv(s.(consumers := s.consumers - {c}))
  {
  }
}
