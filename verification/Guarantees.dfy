/** The promises of the event path, for every reachable state of the protocol. */
module Guarantees {
  import opened Events
  import opened Protocol
  import opened Invariant
  import opened AgentPreservation
  import opened Delivery

  // -------------------------------------------------- first occurrences in order

  predicate HasId(events: seq<Event>, id: Uuid) {
    exists i :: 0 <= i < |events| && events[i].id == id
  }

  /** The messages of `x` with later copies of an `event_id` dropped. */
  function Firsts(stream: seq<Event>, x: Uuid): seq<Event> {
    if |stream| == 0 then []
    else
      var earlier := Firsts(stream[..|stream| - 1], x);
      var e := stream[|stream| - 1];
      if e.execution == x && !HasId(earlier, e.id) then earlier + [e] else earlier
  }

  predicate Covers(stream: seq<Event>, x: Uuid, k: nat) {
    forall j :: 0 <= j < |stream| && stream[j].execution == x ==> stream[j].sequence <= k
  }

  predicate AllDurable(history: History, stream: seq<Event>) {
    forall i :: 0 <= i < |stream| ==> Durable(history, stream[i])
  }

  /** Every message of `x` has sequence 1 or comes after its predecessor. */
  predicate OrderedOf(stream: seq<Event>, x: Uuid) {
    forall i {:trigger InOrder(stream, i)} :: 0 <= i < |stream| && stream[i].execution == x ==> InOrder(stream, i)
  }

  lemma OrderedPrefix(stream: seq<Event>, x: Uuid, n: nat)
    requires OrderedOf(stream, x) && n <= |stream|
    ensures OrderedOf(stream[..n], x)
  {
    forall i {:trigger InOrder(stream[..n], i)} | 0 <= i < n && stream[i].execution == x
      ensures InOrder(stream[..n], i)
    {
      assert InOrder(stream, i);
      if stream[i].sequence - 1 != 0 {
        var j :| 0 <= j < i && j < |stream| && stream[j].execution == stream[i].execution
                 && stream[j].sequence == stream[i].sequence - 1;
        assert stream[..n][j] == stream[j];
      }
    }
  }

  /** Ids identify slots, so an event's id is among the first `k` exactly when the event is. */
  lemma IdInPrefix(issued: map<Uuid, Key>, counters: map<Uuid, nat>, history: History, e: Event, k: nat)
    requires HistoryOk(issued, counters, history) && Durable(history, e) && k <= |Of(history, e.execution)|
    ensures HasId(Of(history, e.execution)[..k], e.id) <==> e.sequence <= k
  {
    var h := Of(history, e.execution);
    assert Fits(issued, h[e.sequence - 1], e.execution, e.sequence - 1 + 1);
    if HasId(h[..k], e.id) {
      var i :| 0 <= i < k && h[..k][i].id == e.id;
      assert Fits(issued, h[i], e.execution, i + 1);
    }
    if e.sequence <= k {
      assert h[..k][e.sequence - 1] == e;
    }
  }

  /** One more message: it repeats an earlier event or it is the next one. */
  lemma FirstsStep(issued: map<Uuid, Key>, counters: map<Uuid, nat>, history: History,
                   init: seq<Event>, e: Event)
    requires HistoryOk(issued, counters, history) && Durable(history, e)
    requires Firsts(init, e.execution) <= Of(history, e.execution)
    requires e.sequence <= |Firsts(init, e.execution)| + 1
    ensures Firsts(init + [e], e.execution) <= Of(history, e.execution)
    ensures |Firsts(init + [e], e.execution)| >= |Firsts(init, e.execution)|
    ensures e.sequence <= |Firsts(init + [e], e.execution)|
  {
    var x := e.execution;
    var k := |Firsts(init, x)|;
    assert Firsts(init, x) == Of(history, x)[..k];
    FirstsMore(init, e);
    IdInPrefix(issued, counters, history, e, k);
    if e.sequence == k + 1 {
      PrefixMore(Of(history, x), Firsts(init, x), e);
    }
  }

  lemma FirstsMore(init: seq<Event>, e: Event)
    ensures var earlier := Firsts(init, e.execution);
      Firsts(init + [e], e.execution) == if HasId(earlier, e.id) then earlier else earlier + [e]
  {
    assert (init + [e])[..|init|] == init;
  }

  lemma PrefixMore(all: seq<Event>, some: seq<Event>, e: Event)
    requires some <= all && |some| < |all| && all[|some|] == e
    ensures some + [e] <= all
  {
  }

  lemma NextBound(stream: seq<Event>, n: nat, k: nat)
    requires n < |stream| && InOrder(stream, n) && Covers(stream[..n], stream[n].execution, k)
    ensures stream[n].sequence <= k + 1
  {
    if stream[n].sequence - 1 > 0 {
      var j :| 0 <= j < n && j < |stream| && stream[j].execution == stream[n].execution
               && stream[j].sequence == stream[n].sequence - 1;
      assert stream[..n][j] == stream[j];
    }
  }

  lemma CoversStep(init: seq<Event>, e: Event, x: Uuid, k: nat, k': nat)
    requires Covers(init, x, k) && k <= k' && (e.execution == x ==> e.sequence <= k')
    ensures Covers(init + [e], x, k')
  {
  }

  lemma {:induction false} FirstsPrefix(issued: map<Uuid, Key>, counters: map<Uuid, nat>, history: History,
                                        stream: seq<Event>, x: Uuid)
    requires HistoryOk(issued, counters, history) && AllDurable(history, stream) && OrderedOf(stream, x)
    ensures Firsts(stream, x) <= Of(history, x)
    ensures Covers(stream, x, |Firsts(stream, x)|)
    decreases |stream|
  {
    if |stream| > 0 {
      var n := |stream| - 1;
      var init, e := stream[..n], stream[n];
      assert stream == init + [e];
      OrderedPrefix(stream, x, n);
      FirstsPrefix(issued, counters, history, init, x);
      if e.execution == x {
        assert InOrder(stream, n);
        NextBound(stream, n, |Firsts(init, x)|);
        FirstsStep(issued, counters, history, init, e);
      }
      CoversStep(init, e, x, |Firsts(init, x)|, |Firsts(stream, x)|);
    }
  }

  /** However publishers crash, race and repeat themselves, the first deliveries of an Execution are
      its durable events 1, 2, ..., k in order; and they are all of them once nothing is PENDING. */
  lemma FirstDeliveriesInOrder(s: State, x: Uuid)
    requires Reachable(s)
    ensures Firsts(s.stream, x) <= Of(s.history, x)
    ensures (forall n: nat :: !IsPending(s.outbox, Key(x, n))) ==> Firsts(s.stream, x) == Of(s.history, x)
  {
    ReachableInv(s);
    FirstsPrefix(s.issued, s.counters, s.history, s.stream, x);
    var n := |Of(s.history, x)|;
    if n > 0 && (forall m: nat :: !IsPending(s.outbox, Key(x, m))) {
      assert !IsPending(s.outbox, Key(x, n));
      var j :| 0 <= j < |s.stream| && s.stream[j].execution == x && s.stream[j].sequence == n;
    }
  }

  lemma IdIdentifies(issued: map<Uuid, Key>, counters: map<Uuid, nat>, history: History, a: Event, b: Event)
    requires HistoryOk(issued, counters, history) && Durable(history, a) && Durable(history, b) && a.id == b.id
    ensures a == b
  {
    assert Fits(issued, Of(history, a.execution)[a.sequence - 1], a.execution, a.sequence - 1 + 1);
    assert Fits(issued, Of(history, b.execution)[b.sequence - 1], b.execution, b.sequence - 1 + 1);
  }

  /** Copies of a message are identical. */
  lemma CopiesIdentical(s: State, i: nat, j: nat)
    requires Reachable(s) && i < |s.stream| && j < |s.stream| && s.stream[i].id == s.stream[j].id
    ensures s.stream[i] == s.stream[j]
  {
    ReachableInv(s);
    IdIdentifies(s.issued, s.counters, s.history, s.stream[i], s.stream[j]);
  }

  // --------------------------------------------------------------- the Outbox

  /** Published rows form a prefix: behind a PENDING row, due or not, everything is PENDING. */
  lemma PublishedRowsFormPrefix(s: State, x: Uuid, n: nat, m: nat)
    requires Reachable(s) && n <= m && Key(x, m) in s.outbox && IsPending(s.outbox, Key(x, n))
    ensures IsPending(s.outbox, Key(x, m))
  {
    ReachableInv(s);
    assert Durable(s.history, s.outbox[Key(x, m)].event) && KeyOf(s.outbox[Key(x, m)].event) == Key(x, m);
  }

  /** Events are numbered without gaps, whichever transactions roll back. */
  lemma SequencesContiguous(s: State, x: Uuid, i: nat)
    requires Reachable(s) && i < |Of(s.history, x)|
    ensures Of(s.history, x)[i].sequence == i + 1 && Of(s.history, x)[i].execution == x
  {
    ReachableInv(s);
    assert Fits(s.issued, Of(s.history, x)[i], x, i + 1);
  }

  // --------------------------------------------------------------- the Agents

  /** The store of the Agents is the durable history up to the last applied sequence: each event
      once, in order, with the state row of the last one. */
  lemma AppliedExactlyOnceInOrder(s: State, x: Uuid)
    requires Reachable(s)
    ensures LastSequence(s.db, x) <= |Of(s.history, x)|
    ensures RowsOf(s.db.consumed, x) == Rows(Of(s.history, x)[..LastSequence(s.db, x)])
    ensures x in s.db.states ==>
      LastSequence(s.db, x) > 0 && s.db.states[x] == StateOf(Of(s.history, x)[LastSequence(s.db, x) - 1])
  {
    ReachableInv(s);
    assert DbRowsOk(s.history, s.db, x);
  }

  /** No ACK loses an event: what is acknowledged is in the store. */
  lemma AckedIsApplied(s: State, i: nat)
    requires Reachable(s) && i in s.group.acked
    ensures i < |s.stream| && Applied(s.db, s.stream[i])
    ensures RowOf(s.stream[i]) in s.db.consumed
  {
    ReachableInv(s);
    var e := s.stream[i];
    var x := e.execution;
    assert DbRowsOk(s.history, s.db, x);
    assert Rows(Of(s.history, x)[..LastSequence(s.db, x)])[e.sequence - 1] == RowOf(e);
    RowsOfMember(s.db.consumed, RowOf(e), x);
  }

  /** The primary key refuses an INSERT exactly when the SELECT before it is out of date. */
  lemma CollidesIffOutdated(s: State, c: nat)
    requires Reachable(s) && Handling(s, c) && s.consumers[c].phase.Read?
    requires Judge(s.stream[s.consumers[c].queue[0]].sequence, s.consumers[c].phase.last) == Next
    ensures var e := s.stream[s.consumers[c].queue[0]];
      Recorded(s.db, e.id) <==> s.consumers[c].phase.last < LastSequence(s.db, e.execution)
  {
    ReachableInv(s);
    assert ConsumerOk(s.stream, s.group, s.db, s.consumers[c]);
    RecordedIffApplied(s.issued, s.counters, s.history, s.db, s.stream[s.consumers[c].queue[0]]);
  }

  // ---------------------------------------------------------------- refinement

  /** Ordered exactly-once delivery: events are appended to an Execution, and the store takes the
      next event of some Execution, one at a time. */
  ghost predicate SpecNext(h: History, db: AgentDb, h': History, db': AgentDb) {
    || (h' == h && db' == db)
    || (db' == db && exists x, more :: h' == h[x := Of(h, x) + more])
    || (h' == h && exists x :: TakesNext(h, db, x, db'))
  }

  predicate TakesNext(h: History, db: AgentDb, x: Uuid, db': AgentDb) {
    LastSequence(db, x) < |Of(h, x)| && db' == Record(db, Of(h, x)[LastSequence(db, x)])
  }

  lemma SettleTakesNext(s: State, c: nat)
    requires HistoryOk(s.issued, s.counters, s.history) && DbOk(s.history, s.db)
    requires Handling(s, c) && s.consumers[c].phase.Read? && ConsumerOk(s.stream, s.group, s.db, s.consumers[c])
    requires Durable(s.history, s.stream[s.consumers[c].queue[0]])
    ensures var t := AfterSettle(s, c);
      && t.history == s.history
      && (t.db == s.db || TakesNext(s.history, s.db, s.stream[s.consumers[c].queue[0]].execution, t.db))
  {
    var consumer := s.consumers[c];
    var e := s.stream[consumer.queue[0]];
    if Judge(e.sequence, consumer.phase.last) == Next {
      WriteKeeps(s.issued, s.counters, s.history, s.db, e, consumer.phase.last);
    }
  }

  lemma QuietStep(s: State, step: Step)
    requires Enabled(s, step) && !step.Settle? && !step.CommitWriter?
    ensures Do(s, step).history == s.history && Do(s, step).db == s.db
  {
  }

  /** Every step of the whole protocol is a step of ordered exactly-once delivery, or invisible. */
  lemma RefinesExactlyOnce(s: State, step: Step)
    requires Reachable(s) && Enabled(s, step)
    ensures SpecNext(s.history, s.db, Do(s, step).history, Do(s, step).db)
  {
    ReachableInv(s);
    if step.Settle? {
      SettleTakesNext(s, step.c);
    } else if step.CommitWriter? {
      var x := step.execution;
      assert Do(s, step).history == s.history[x := Of(s.history, x) + s.writers[x]];
    } else {
      QuietStep(s, step);
    }
  }
}
