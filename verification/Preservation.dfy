/** Each step of the event protocol keeps the invariant. */
module Preservation {
  import opened Json
  import opened Events
  import opened Protocol
  import opened Invariant

  // ------------------------------------------------------------- the writers

  lemma PersistHistory(issued: map<Uuid, Key>, counters: map<Uuid, nat>, history: History, id: Uuid, key: Key)
    requires HistoryOk(issued, counters, history) && id !in issued
    ensures HistoryOk(issued[id := key], counters, history)
  {
    forall y, i | 0 <= i < |Of(history, y)| ensures Fits(issued[id := key], Of(history, y)[i], y, i + 1) {
      assert Fits(issued, Of(history, y)[i], y, i + 1);
    }
  }

  lemma PersistWriters(issued: map<Uuid, Key>, history: History, writers: History, e: Event)
    requires WritersOk(issued, history, writers) && e.id !in issued && WellFormed(e.payload)
    requires e.sequence == |Of(history, e.execution)| + |Of(writers, e.execution)| + 1
    ensures WritersOk(issued[e.id := KeyOf(e)], history, writers[e.execution := Of(writers, e.execution) + [e]])
  {
    var x := e.execution;
    var after := writers[x := Of(writers, x) + [e]];
    forall y, i | 0 <= i < |Of(after, y)|
      ensures Fits(issued[e.id := KeyOf(e)], Of(after, y)[i], y, |Of(history, y)| + i + 1)
    {
      if y != x || i < |Of(writers, x)| {
        assert Fits(issued, Of(writers, y)[i], y, |Of(history, y)| + i + 1);
      }
    }
  }

  lemma PersistKeeps(s: State, step: Step)
    requires Inv(s) && step.Persist? && step.id !in s.issued && WellFormed(step.payload)
    ensures Inv(Persisted(s, step))
  {
    var e := Draft(s, step);
    assert Counter(s.counters, step.execution) == |Of(s.history, step.execution)|;
    PersistHistory(s.issued, s.counters, s.history, e.id, KeyOf(e));
    PersistWriters(s.issued, s.history, s.writers, e);
  }

  lemma CommitHistory(issued: map<Uuid, Key>, counters: map<Uuid, nat>, history: History, x: Uuid, drafts: seq<Event>)
    requires HistoryOk(issued, counters, history)
    requires forall i :: 0 <= i < |drafts| ==> Fits(issued, drafts[i], x, |Of(history, x)| + i + 1)
    ensures HistoryOk(issued, counters[x := Counter(counters, x) + |drafts|], history[x := Of(history, x) + drafts])
  {
    var after := history[x := Of(history, x) + drafts];
    forall y, i | 0 <= i < |Of(after, y)| ensures Fits(issued, Of(after, y)[i], y, i + 1) {
      if y == x && i >= |Of(history, x)| {
        var j := i - |Of(history, x)|;
        assert Fits(issued, drafts[j], x, |Of(history, x)| + j + 1);
      } else {
        assert Fits(issued, Of(history, y)[i], y, i + 1);
      }
    }
    forall y ensures Counter(counters[x := Counter(counters, x) + |drafts|], y) == |Of(after, y)| {
      assert Counter(counters, y) == |Of(history, y)| && Counter(counters, x) == |Of(history, x)|;
    }
  }

  lemma CommitWriters(issued: map<Uuid, Key>, history: History, writers: History, x: Uuid, drafts: seq<Event>)
    requires WritersOk(issued, history, writers)
    ensures WritersOk(issued, history[x := Of(history, x) + drafts], writers - {x})
  {
    var after := history[x := Of(history, x) + drafts];
    forall y, i | 0 <= i < |Of(writers - {x}, y)|
      ensures Fits(issued, Of(writers - {x}, y)[i], y, |Of(after, y)| + i + 1)
    {
      assert y != x && Of(writers - {x}, y) == Of(writers, y) && Of(after, y) == Of(history, y);
      assert Fits(issued, Of(writers, y)[i], y, |Of(history, y)| + i + 1);
    }
  }

  lemma DurableStays(h: History, x: Uuid, more: seq<Event>, e: Event)
    requires Durable(h, e)
    ensures Durable(h[x := Of(h, x) + more], e)
  {
  }

  lemma DurableNew(issued: map<Uuid, Key>, h: History, x: Uuid, more: seq<Event>, i: nat)
    requires i < |more| && Fits(issued, more[i], x, |Of(h, x)| + i + 1)
    ensures Durable(h[x := Of(h, x) + more], more[i])
  {
  }

  lemma NewRowAt(x: Uuid, counter: nat, drafts: seq<Event>, i: nat)
    requires i < |drafts|
    ensures var k := Key(x, counter + i + 1);
      k in NewRows(x, counter, drafts) && NewRows(x, counter, drafts)[k].event == drafts[i]
  {
  }

  lemma CommitRowOk(issued: map<Uuid, Key>, history: History, outbox: map<Key, OutboxRow>, x: Uuid, drafts: seq<Event>,
                    k: Key)
    requires OutboxOk(history, outbox) && k in outbox + NewRows(x, |Of(history, x)|, drafts)
    requires forall i :: 0 <= i < |drafts| ==> Fits(issued, drafts[i], x, |Of(history, x)| + i + 1)
    ensures var e := (outbox + NewRows(x, |Of(history, x)|, drafts))[k].event;
      Durable(history[x := Of(history, x) + drafts], e) && KeyOf(e) == k
  {
    if k in NewRows(x, |Of(history, x)|, drafts) {
      var i := k.sequence - |Of(history, x)| - 1;
      NewRowAt(x, |Of(history, x)|, drafts, i);
      DurableNew(issued, history, x, drafts, i);
      assert k == Key(x, |Of(history, x)| + i + 1);
    } else {
      DurableStays(history, x, drafts, outbox[k].event);
    }
  }

  lemma CommitOutbox(issued: map<Uuid, Key>, history: History, outbox: map<Key, OutboxRow>, x: Uuid, drafts: seq<Event>)
    requires OutboxOk(history, outbox)
    requires forall i :: 0 <= i < |drafts| ==> Fits(issued, drafts[i], x, |Of(history, x)| + i + 1)
    ensures OutboxOk(history[x := Of(history, x) + drafts], outbox + NewRows(x, |Of(history, x)|, drafts))
  {
    var after := history[x := Of(history, x) + drafts];
    var all := outbox + NewRows(x, |Of(history, x)|, drafts);
    forall k | k in all ensures Durable(after, all[k].event) && KeyOf(all[k].event) == k {
      CommitRowOk(issued, history, outbox, x, drafts, k);
    }
  }

  /** Exactly the new slots become PENDING. */
  lemma CommitPending(history: History, outbox: map<Key, OutboxRow>, x: Uuid, drafts: seq<Event>, k: Key)
    requires OutboxOk(history, outbox)
    ensures IsPending(outbox + NewRows(x, |Of(history, x)|, drafts), k) <==>
      IsPending(outbox, k) || (k.execution == x && |Of(history, x)| < k.sequence <= |Of(history, x)| + |drafts|)
  {
  }

  lemma CommitSuffix(history: History, outbox: map<Key, OutboxRow>, stream: seq<Event>, x: Uuid, drafts: seq<Event>)
    requires OutboxOk(history, outbox) && PendingSuffix(history, outbox) && PublishedSeen(history, outbox, stream)
    ensures var h := history[x := Of(history, x) + drafts];
      var o := outbox + NewRows(x, |Of(history, x)|, drafts);
      PendingSuffix(h, o) && PublishedSeen(h, o, stream)
  {
    var h := history[x := Of(history, x) + drafts];
    var o := outbox + NewRows(x, |Of(history, x)|, drafts);
    forall y, n: nat, m: nat | IsPending(o, Key(y, n)) && n <= m <= |Of(h, y)| ensures IsPending(o, Key(y, m)) {
      CommitPending(history, outbox, x, drafts, Key(y, n));
      CommitPending(history, outbox, x, drafts, Key(y, m));
      if m <= |Of(history, y)| {
        assert IsPending(outbox, Key(y, n));
      }
    }
    forall y, n | 1 <= n <= |Of(h, y)| && !IsPending(o, Key(y, n)) ensures Seen(stream, |stream|, y, n) {
      CommitPending(history, outbox, x, drafts, Key(y, n));
    }
  }

  /** Nothing a publisher holds depends on rows that come after its own. */
  lemma CommitFront(history: History, outbox: map<Key, OutboxRow>, x: Uuid, drafts: seq<Event>, k: Key)
    requires OutboxOk(history, outbox) && k in outbox && Front(outbox, k)
    ensures Front(outbox + NewRows(x, |Of(history, x)|, drafts), k)
  {
    if k.sequence > 0 {
      CommitPending(history, outbox, x, drafts, Key(k.execution, k.sequence - 1));
      assert KeyOf(outbox[k].event) == k && Durable(history, outbox[k].event);
    }
  }

  /** Order and marks carry over to an Outbox where first rows stay first. */
  lemma OrderTransfers(outbox: map<Key, OutboxRow>, after: map<Key, OutboxRow>, pub: Publisher)
    requires forall i {:trigger Ordered(outbox, pub.batch, i)} :: 0 <= i < |pub.batch| ==> Ordered(outbox, pub.batch, i)
    requires forall k {:trigger Chained(outbox, pub.marked, k)} :: k in pub.marked ==> Chained(outbox, pub.marked, k)
    requires forall k :: k in pub.marked ==> k in pub.batch
    requires forall k :: k in pub.batch ==> Front(outbox, k) ==> Front(after, k)
    ensures forall i {:trigger Ordered(after, pub.batch, i)} :: 0 <= i < |pub.batch| ==> Ordered(after, pub.batch, i)
    ensures forall k {:trigger Chained(after, pub.marked, k)} :: k in pub.marked ==> Chained(after, pub.marked, k)
  {
    forall i {:trigger Ordered(after, pub.batch, i)} | 0 <= i < |pub.batch| ensures Ordered(after, pub.batch, i) {
      assert Ordered(outbox, pub.batch, i);
    }
    forall k {:trigger Chained(after, pub.marked, k)} | k in pub.marked ensures Chained(after, pub.marked, k) {
      assert Chained(outbox, pub.marked, k);
    }
  }

  lemma CommitPublishers(history: History, outbox: map<Key, OutboxRow>, stream: seq<Event>,
                         publishers: map<nat, Publisher>, x: Uuid, drafts: seq<Event>)
    requires OutboxOk(history, outbox) && PublishersOk(outbox, stream, publishers)
    ensures PublishersOk(outbox + NewRows(x, |Of(history, x)|, drafts), stream, publishers)
  {
    var o := outbox + NewRows(x, |Of(history, x)|, drafts);
    forall p | p in publishers ensures PublisherOk(o, stream, publishers[p]) {
      var pub := publishers[p];
      assert PublisherOk(outbox, stream, pub);
      forall k | k in pub.batch ensures IsPending(o, k) && (Front(outbox, k) ==> Front(o, k)) {
        assert IsPending(outbox, k);
        CommitPending(history, outbox, x, drafts, k);
        if Front(outbox, k) {
          CommitFront(history, outbox, x, drafts, k);
        }
      }
      OrderTransfers(outbox, o, pub);
      forall i | 0 <= i < |pub.heads| ensures Front(o, pub.heads[i]) {
        assert pub.heads[i] == pub.batch[i];
      }
    }
  }

  lemma CommitStream(history: History, stream: seq<Event>, inflight: set<Event>, x: Uuid, drafts: seq<Event>)
    requires StreamOk(history, stream) && InflightOk(history, stream, inflight)
    ensures var h := history[x := Of(history, x) + drafts]; StreamOk(h, stream) && InflightOk(h, stream, inflight)
  {
    var h := history[x := Of(history, x) + drafts];
    forall i | 0 <= i < |stream| ensures Durable(h, stream[i]) {
      DurableStays(history, x, drafts, stream[i]);
    }
    forall e | e in inflight ensures MayFollow(h, stream, e) {
      assert MayFollow(history, stream, e);
      DurableStays(history, x, drafts, e);
    }
  }

  lemma CommitDb(history: History, db: AgentDb, x: Uuid, drafts: seq<Event>)
    requires DbOk(history, db)
    ensures DbOk(history[x := Of(history, x) + drafts], db)
  {
    var h := history[x := Of(history, x) + drafts];
    forall y
      ensures DbRowsOk(h, db, y)
    {
      var n := LastSequence(db, y);
      assert DbRowsOk(history, db, y);
      assert Of(h, y)[..n] == Of(history, y)[..n];
    }
  }

  lemma DraftsFit(s: State, x: Uuid)
    requires HistoryOk(s.issued, s.counters, s.history) && WritersOk(s.issued, s.history, s.writers) && x in s.writers
    ensures Of(s.writers, x) == s.writers[x] && Counter(s.counters, x) == |Of(s.history, x)|
    ensures forall i :: 0 <= i < |s.writers[x]| ==> Fits(s.issued, s.writers[x][i], x, |Of(s.history, x)| + i + 1)
  {
    forall i | 0 <= i < |s.writers[x]| ensures Fits(s.issued, s.writers[x][i], x, |Of(s.history, x)| + i + 1) {
      assert Fits(s.issued, Of(s.writers, x)[i], x, |Of(s.history, x)| + i + 1);
    }
  }

  lemma CommitTables(s: State, x: Uuid)
    requires HistoryOk(s.issued, s.counters, s.history) && WritersOk(s.issued, s.history, s.writers) && x in s.writers
    ensures var t := Committed(s, x);
      HistoryOk(t.issued, t.counters, t.history) && WritersOk(t.issued, t.history, t.writers)
  {
    DraftsFit(s, x);
    CommitHistory(s.issued, s.counters, s.history, x, s.writers[x]);
    CommitWriters(s.issued, s.history, s.writers, x, s.writers[x]);
  }

  lemma CommitOutboxRows(s: State, x: Uuid)
    requires HistoryOk(s.issued, s.counters, s.history) && WritersOk(s.issued, s.history, s.writers) && x in s.writers
    requires OutboxOk(s.history, s.outbox)
    ensures OutboxOk(Committed(s, x).history, Committed(s, x).outbox)
  {
    DraftsFit(s, x);
    CommitOutbox(s.issued, s.history, s.outbox, x, s.writers[x]);
  }

  lemma CommitTransport(s: State, x: Uuid)
    requires Inv(s) && x in s.writers
    ensures var t := Committed(s, x);
      && PendingSuffix(t.history, t.outbox)
      && StreamOk(t.history, t.stream)
      && PublishedSeen(t.history, t.outbox, t.stream)
      && InflightOk(t.history, t.stream, t.inflight)
      && PublishersOk(t.outbox, t.stream, t.publishers)
  {
    DraftsFit(s, x);
    var drafts := s.writers[x];
    CommitSuffix(s.history, s.outbox, s.stream, x, drafts);
    CommitPublishers(s.history, s.outbox, s.stream, s.publishers, x, drafts);
    CommitStream(s.history, s.stream, s.inflight, x, drafts);
  }

  lemma CommitWriterKeeps(s: State, x: Uuid)
    requires Inv(s) && x in s.writers
    ensures Inv(Committed(s, x))
  {
    CommitTables(s, x);
    CommitOutboxRows(s, x);
    CommitTransport(s, x);
    CommitDb(s.history, s.db, x, s.writers[x]);
  }

  lemma AbortWriterKeeps(s: State, x: Uuid)
    requires Inv(s) && x in s.writers
    ensures Inv(s.(writers := s.writers - {x}))
  {
    forall y, i | 0 <= i < |Of(s.writers - {x}, y)|
      ensures Fits(s.issued, Of(s.writers - {x}, y)[i], y, |Of(s.history, y)| + i + 1)
    {
      assert Of(s.writers - {x}, y) == Of(s.writers, y);
    }
  }

  // ---------------------------------------------------- messages on the Stream

  lemma SeenStays(stream: seq<Event>, e: Event, upTo: nat, x: Uuid, n: int)
    requires Seen(stream, upTo, x, n) && upTo <= |stream|
    ensures Seen(stream + [e], upTo, x, n) && Seen(stream + [e], |stream| + 1, x, n)
  {
    if n != 0 {
      var j :| 0 <= j < upTo && j < |stream| && stream[j].execution == x && stream[j].sequence == n;
      assert (stream + [e])[j] == stream[j];
    }
  }

  lemma AppendStream(history: History, stream: seq<Event>, e: Event)
    requires StreamOk(history, stream) && MayFollow(history, stream, e)
    ensures StreamOk(history, stream + [e])
    ensures Seen(stream + [e], |stream| + 1, e.execution, e.sequence)
  {
    var after := stream + [e];
    forall i {:trigger InOrder(after, i)} | 0 <= i < |after| ensures InOrder(after, i) {
      if i < |stream| {
        assert InOrder(stream, i);
        SeenStays(stream, e, i, stream[i].execution, stream[i].sequence - 1);
      } else {
        SeenStays(stream, e, |stream|, e.execution, e.sequence - 1);
      }
    }
    assert after[|stream|] == e;
  }

  lemma AppendPublishers(outbox: map<Key, OutboxRow>, stream: seq<Event>, publishers: map<nat, Publisher>, e: Event)
    requires PublishersOk(outbox, stream, publishers)
    ensures PublishersOk(outbox, stream + [e], publishers)
  {
    forall p | p in publishers ensures PublisherOk(outbox, stream + [e], publishers[p]) {
      var pub := publishers[p];
      assert PublisherOk(outbox, stream, pub);
      forall k | k in pub.marked ensures Seen(stream + [e], |stream| + 1, k.execution, k.sequence) {
        SeenStays(stream, e, |stream|, k.execution, k.sequence);
      }
    }
  }

  lemma AppendAgents(stream: seq<Event>, trimmed: nat, group: Group, db: AgentDb, consumers: map<nat, Consumer>,
                     e: Event)
    requires GroupOk(stream, trimmed, group) && AckedOk(stream, group, db) && ConsumersOk(stream, group, db, consumers)
    ensures GroupOk(stream + [e], trimmed, group) && AckedOk(stream + [e], group, db)
    ensures ConsumersOk(stream + [e], group, db, consumers)
  {
    forall c | c in consumers ensures ConsumerOk(stream + [e], group, db, consumers[c]) {
      assert ConsumerOk(stream, group, db, consumers[c]);
    }
  }

  /** Adding a message whose predecessor is there keeps the invariant, whoever adds it. */
  lemma AppendKeeps(s: State, e: Event)
    requires Inv(s) && MayFollow(s.history, s.stream, e)
    ensures Inv(s.(stream := s.stream + [e]))
    ensures Seen(s.stream + [e], |s.stream| + 1, e.execution, e.sequence)
  {
    AppendStream(s.history, s.stream, e);
    AppendPublishers(s.outbox, s.stream, s.publishers, e);
    AppendAgents(s.stream, s.trimmed, s.group, s.db, s.consumers, e);
    forall x, n | 1 <= n <= |Of(s.history, x)| && !IsPending(s.outbox, Key(x, n))
      ensures Seen(s.stream + [e], |s.stream| + 1, x, n)
    {
      SeenStays(s.stream, e, |s.stream|, x, n);
    }
    forall f | f in s.inflight ensures MayFollow(s.history, s.stream + [e], f) {
      assert MayFollow(s.history, s.stream, f);
      SeenStays(s.stream, e, |s.stream|, f.execution, f.sequence - 1);
    }
  }

  lemma LateArrivalKeeps(s: State, e: Event)
    requires Inv(s) && e in s.inflight
    ensures Inv(s.(stream := s.stream + [e]))
  {
    AppendKeeps(s, e);
  }

  // ----------------------------------------------------------- the publishers

  /** Whoever holds a row of an Execution holds its first PENDING row. */
  lemma {:induction false} FrontInBatch(outbox: map<Key, OutboxRow>, batch: seq<Key>, i: nat) returns (j: nat)
    requires BatchOk(outbox, batch) && i < |batch|
    ensures j <= i && batch[j].execution == batch[i].execution && Front(outbox, batch[j])
  {
    assert Ordered(outbox, batch, i);
    if Front(outbox, batch[i]) {
      j := i;
    } else {
      var k :| 0 <= k < i && k < |batch| && batch[k] == Key(batch[i].execution, batch[i].sequence - 1);
      j := FrontInBatch(outbox, batch, k);
    }
  }

  /** An Execution has one first PENDING row. */
  lemma HeadIsFront(history: History, outbox: map<Key, OutboxRow>, now: nat, head: Key, front: Key)
    requires OutboxOk(history, outbox) && PendingSuffix(history, outbox)
    requires IsHead(outbox, now, head) && IsPending(outbox, front) && Front(outbox, front)
    requires head.execution == front.execution
    ensures head == front
  {
    assert Durable(history, outbox[front].event) && KeyOf(outbox[front].event) == front;
    assert IsPending(outbox, Key(head.execution, head.sequence));
    var prior: nat := front.sequence - 1;
    assert head.sequence <= prior ==> IsPending(outbox, Key(head.execution, prior));
  }

  lemma HeadUnheld(s: State, p: nat, now: nat, head: Key, q: nat, j: nat)
    requires Inv(s) && p !in s.publishers && q in s.publishers && j < |s.publishers[q].batch|
    requires IsHead(s.outbox, now, head) && !LockedByOther(s.publishers, p, head)
    ensures s.publishers[q].batch[j].execution != head.execution
  {
    var batch := s.publishers[q].batch;
    assert PublisherOk(s.outbox, s.stream, s.publishers[q]);
    if batch[j].execution == head.execution {
      var f := FrontInBatch(s.outbox, batch, j);
      HeadIsFront(s.history, s.outbox, now, head, batch[f]);
    }
  }

  /** A transaction that has only its heads yet. */
  lemma HeadsAreOk(outbox: map<Key, OutboxRow>, stream: seq<Event>, now: nat, heads: seq<Key>)
    requires forall i :: 0 <= i < |heads| ==> IsHead(outbox, now, heads[i])
    ensures PublisherOk(outbox, stream, Publisher(now, heads, heads, false, 0, {}, map[], {}, false))
  {
    forall i | 0 <= i < |heads| ensures IsPending(outbox, heads[i]) && Front(outbox, heads[i]) {
      assert IsHead(outbox, now, heads[i]);
    }
  }

  lemma SelectHeadsKeeps(s: State, p: nat, now: nat, heads: seq<Key>)
    requires Inv(s) && CanSelectHeads(s, p, now, heads)
    ensures Inv(HeadsSelected(s, p, now, heads))
  {
    HeadsAreOk(s.outbox, s.stream, now, heads);
    HeadsUnheld(s, p, now, heads);
    AddHolder(s.outbox, s.stream, s.publishers, p, Publisher(now, heads, heads, false, 0, {}, map[], {}, false));
  }

  lemma AddHolder(outbox: map<Key, OutboxRow>, stream: seq<Event>, publishers: map<nat, Publisher>, p: nat,
                  pub: Publisher)
    requires PublishersOk(outbox, stream, publishers) && p !in publishers && PublisherOk(outbox, stream, pub)
    requires forall q, i, j :: q in publishers && 0 <= i < |pub.batch| && 0 <= j < |publishers[q].batch| ==>
      publishers[q].batch[j].execution != pub.batch[i].execution
    ensures PublishersOk(outbox, stream, publishers[p := pub])
  {
  }

  lemma HeadsUnheld(s: State, p: nat, now: nat, heads: seq<Key>)
    requires Inv(s) && CanSelectHeads(s, p, now, heads)
    ensures forall q, i, j :: q in s.publishers && 0 <= i < |heads| && 0 <= j < |s.publishers[q].batch| ==>
      s.publishers[q].batch[j].execution != heads[i].execution
  {
    forall q, i, j | q in s.publishers && 0 <= i < |heads| && 0 <= j < |s.publishers[q].batch|
      ensures s.publishers[q].batch[j].execution != heads[i].execution
    {
      HeadUnheld(s, p, now, heads[i], q, j);
    }
  }

  lemma RowUnlocked(publishers: map<nat, Publisher>, p: nat, i: nat, k: Key)
    requires OneHolder(publishers) && p in publishers && i < |publishers[p].batch|
    requires publishers[p].batch[i].execution == k.execution
    ensures !LockedByOther(publishers, p, k)
  {
  }

  /** Nothing keeps the PENDING row right before a follower out of the follower query. */
  lemma PriorFollows(s: State, p: nat, k: Key)
    requires OneHolder(s.publishers) && p in s.publishers && s.publishers[p].batch == s.publishers[p].heads
    requires IsFollower(s, p, k) && !Front(s.outbox, k)
    requires Key(k.execution, k.sequence - 1) !in s.publishers[p].heads
    ensures IsFollower(s, p, Key(k.execution, k.sequence - 1))
  {
    var pub := s.publishers[p];
    var h :| h in pub.heads && h.execution == k.execution;
    var i :| 0 <= i < |pub.batch| && pub.batch[i] == h;
    RowUnlocked(s.publishers, p, i, Key(k.execution, k.sequence - 1));
  }

  lemma AmongShift(heads: seq<Key>, followers: seq<Key>, j: nat, k: Key)
    requires Among(followers, j, k)
    ensures Among(heads + followers, |heads| + j, k)
  {
    var i :| 0 <= i < j && i < |followers| && followers[i] == k;
    assert (heads + followers)[|heads| + i] == k;
  }

  lemma AmongHeads(heads: seq<Key>, followers: seq<Key>, j: nat, k: Key)
    requires k in heads
    ensures Among(heads + followers, |heads| + j, k)
  {
    var i :| 0 <= i < |heads| && heads[i] == k;
    assert (heads + followers)[i] == k;
  }

  /** The follower query skips nothing: the row right before a follower is in the batch or not PENDING. */
  lemma FollowerPrior(s: State, p: nat, followers: seq<Key>, j: nat)
    requires OneHolder(s.publishers) && p in s.publishers && s.publishers[p].batch == s.publishers[p].heads
    requires IsFollowerBatch(s, p, followers) && j < |followers|
    ensures Front(s.outbox, followers[j])
         || Prior(s.publishers[p].heads + followers, |s.publishers[p].heads| + j, followers[j])
  {
    var heads := s.publishers[p].heads;
    var k := followers[j];
    if !Front(s.outbox, k) {
      var prior := Key(k.execution, k.sequence - 1);
      if prior in heads {
        AmongHeads(heads, followers, j, prior);
      } else {
        PriorFollows(s, p, k);
        assert Before(prior, followers[j]);
        AmongShift(heads, followers, j, prior);
      }
    }
  }

  lemma AmongPrefix(heads: seq<Key>, followers: seq<Key>, upTo: nat, k: Key)
    requires Among(heads, upTo, k)
    ensures Among(heads + followers, upTo, k)
  {
    var i :| 0 <= i < upTo && i < |heads| && heads[i] == k;
    assert (heads + followers)[i] == k;
  }

  lemma FollowersBatch(s: State, p: nat, followers: seq<Key>)
    requires OneHolder(s.publishers) && p in s.publishers && s.publishers[p].batch == s.publishers[p].heads
    requires BatchOk(s.outbox, s.publishers[p].heads) && IsFollowerBatch(s, p, followers)
    ensures BatchOk(s.outbox, s.publishers[p].heads + followers)
  {
    var heads := s.publishers[p].heads;
    var batch := heads + followers;
    forall i | 0 <= i < |batch| ensures IsPending(s.outbox, batch[i]) {
      assert i >= |heads| ==> IsFollower(s, p, followers[i - |heads|]);
    }
    forall i {:trigger Ordered(s.outbox, batch, i)} | 0 <= i < |batch| ensures Ordered(s.outbox, batch, i) {
      if i < |heads| {
        assert batch[i] == heads[i] && Ordered(s.outbox, heads, i);
        if !Front(s.outbox, heads[i]) {
          AmongPrefix(heads, followers, i, Key(heads[i].execution, heads[i].sequence - 1));
        }
      } else {
        assert batch[i] == followers[i - |heads|];
        FollowerPrior(s, p, followers, i - |heads|);
      }
    }
  }

  lemma FollowersHolder(s: State, p: nat, followers: seq<Key>)
    requires OneHolder(s.publishers) && p in s.publishers && s.publishers[p].batch == s.publishers[p].heads
    requires IsFollowerBatch(s, p, followers)
    ensures OneHolder(FollowersSelected(s, p, followers).publishers)
  {
    var pub := s.publishers[p];
    var batch := pub.heads + followers;
    forall q, i, j | q in s.publishers && q != p && 0 <= i < |batch| && 0 <= j < |s.publishers[q].batch|
      ensures s.publishers[q].batch[j].execution != batch[i].execution
    {
      var k := batch[i];
      if i < |pub.heads| {
        assert k == pub.batch[i];
      } else {
        assert k == followers[i - |pub.heads|] && IsFollower(s, p, k);
        var h :| h in pub.heads && h.execution == k.execution;
        var m :| 0 <= m < |pub.batch| && pub.batch[m] == h;
        assert s.publishers[q].batch[j].execution != pub.batch[m].execution;
      }
    }
  }

  lemma SelectFollowersKeeps(s: State, p: nat, followers: seq<Key>)
    requires Inv(s) && p in s.publishers && !s.publishers[p].extended && IsFollowerBatch(s, p, followers)
    ensures Inv(FollowersSelected(s, p, followers))
  {
    var t := FollowersSelected(s, p, followers);
    assert PublisherOk(s.outbox, s.stream, s.publishers[p]);
    FollowersBatch(s, p, followers);
    FollowersHolder(s, p, followers);
    forall q | q in t.publishers ensures PublisherOk(t.outbox, t.stream, t.publishers[q]) {
      assert PublisherOk(s.outbox, s.stream, s.publishers[q]);
    }
  }

  lemma FrontSeen(history: History, outbox: map<Key, OutboxRow>, stream: seq<Event>, k: Key)
    requires PublishedSeen(history, outbox, stream) && Front(outbox, k)
    requires 1 <= k.sequence <= |Of(history, k.execution)|
    ensures Seen(stream, |stream|, k.execution, k.sequence - 1)
  {
    var prior: nat := k.sequence - 1;
    if prior > 0 {
      assert !IsPending(outbox, Key(k.execution, prior));
    }
  }

  lemma PriorMarked(outbox: map<Key, OutboxRow>, stream: seq<Event>, pub: Publisher)
    requires PublisherOk(outbox, stream, pub) && pub.next < |pub.batch|
    requires pub.batch[pub.next].execution !in pub.blocked && !Front(outbox, pub.batch[pub.next])
    ensures var k := pub.batch[pub.next];
      && k.sequence > 0
      && Key(k.execution, k.sequence - 1) in pub.marked
      && Seen(stream, |stream|, k.execution, k.sequence - 1)
  {
    var k := pub.batch[pub.next];
    assert Ordered(outbox, pub.batch, pub.next);
    var i :| 0 <= i < pub.next && i < |pub.batch| && pub.batch[i] == Key(k.execution, k.sequence - 1);
    assert pub.batch[i] in pub.marked;
  }

  /** The message the loop is about to send has its predecessor on the Stream already. */
  lemma NextMayFollow(history: History, outbox: map<Key, OutboxRow>, stream: seq<Event>, pub: Publisher)
    requires OutboxOk(history, outbox) && PublishedSeen(history, outbox, stream) && PublisherOk(outbox, stream, pub)
    requires pub.next < |pub.batch| && pub.batch[pub.next] in outbox && pub.batch[pub.next].execution !in pub.blocked
    ensures MayFollow(history, stream, outbox[pub.batch[pub.next]].event)
    ensures Chained(outbox, pub.marked, pub.batch[pub.next])
  {
    var k := pub.batch[pub.next];
    assert Durable(history, outbox[k].event) && KeyOf(outbox[k].event) == k;
    if Front(outbox, k) {
      FrontSeen(history, outbox, stream, k);
    } else {
      PriorMarked(outbox, stream, pub);
    }
  }

  lemma TurnMarks(outbox: map<Key, OutboxRow>, stream: seq<Event>, pub: Publisher, outcome: Outcome)
    requires PublisherOk(outbox, stream, pub) && pub.extended && pub.next < |pub.batch|
    requires var k := pub.batch[pub.next];
      k.execution !in pub.blocked && outcome.Sent? ==>
        Seen(stream, |stream|, k.execution, k.sequence) && Chained(outbox, pub.marked, k)
    ensures PublisherOk(outbox, stream, Turn(pub, outcome))
  {
    var next := Turn(pub, outcome);
    assert next.batch == pub.batch;
    forall k {:trigger Chained(outbox, next.marked, k)} | k in next.marked ensures Chained(outbox, next.marked, k) {
      assert k in pub.marked ==> Chained(outbox, pub.marked, k);
    }
    forall i | 0 <= i < next.next && i < |next.batch|
      ensures next.batch[i] in next.marked || next.batch[i].execution in next.blocked
    {
      assert i < pub.next ==> pub.batch[i] in pub.marked || pub.batch[i].execution in pub.blocked;
    }
  }

  lemma TurnPublishers(outbox: map<Key, OutboxRow>, stream: seq<Event>, publishers: map<nat, Publisher>, p: nat,
                       outcome: Outcome)
    requires PublishersOk(outbox, stream, publishers) && p in publishers
    requires publishers[p].extended && publishers[p].next < |publishers[p].batch|
    requires PublisherOk(outbox, stream, Turn(publishers[p], outcome))
    ensures PublishersOk(outbox, stream, publishers[p := Turn(publishers[p], outcome)])
  {
    assert Turn(publishers[p], outcome).batch == publishers[p].batch;
  }

  lemma TurnKeeps(s: State, p: nat, outcome: Outcome)
    requires Inv(s) && p in s.publishers && s.publishers[p].extended && s.publishers[p].next < |s.publishers[p].batch|
    requires var pub := s.publishers[p];
      var k := pub.batch[pub.next];
      k.execution !in pub.blocked && outcome.Sent? ==>
        Seen(s.stream, |s.stream|, k.execution, k.sequence) && Chained(s.outbox, pub.marked, k)
    ensures Inv(s.(publishers := s.publishers[p := Turn(s.publishers[p], outcome)]))
  {
    assert PublisherOk(s.outbox, s.stream, s.publishers[p]);
    TurnMarks(s.outbox, s.stream, s.publishers[p], outcome);
    TurnPublishers(s.outbox, s.stream, s.publishers, p, outcome);
  }

  lemma InflightKeeps(s: State, event: Event)
    requires Inv(s) && MayFollow(s.history, s.stream, event)
    ensures Inv(s.(inflight := s.inflight + {event}))
  {
  }

  lemma MayFollowStays(history: History, stream: seq<Event>, event: Event)
    requires MayFollow(history, stream, event)
    ensures MayFollow(history, stream + [event], event)
  {
    SeenStays(stream, event, |stream|, event.execution, event.sequence - 1);
  }

  lemma PublishNextKeeps(s: State, p: nat, outcome: Outcome)
    requires Inv(s) && CanPublish(s, p)
    ensures Inv(PublishedNext(s, p, outcome))
  {
    var pub := s.publishers[p];
    var event := s.outbox[pub.batch[pub.next]].event;
    var sent, late := s, s;
    if pub.batch[pub.next].execution !in pub.blocked {
      assert KeyOf(event) == pub.batch[pub.next];
      NextMayFollow(s.history, s.outbox, s.stream, pub);
      if Adds(pub, outcome) {
        AppendKeeps(s, event);
        MayFollowStays(s.history, s.stream, event);
        sent := s.(stream := s.stream + [event]);
      }
      late := sent;
      if MayAddLater(pub, outcome) {
        InflightKeeps(sent, event);
        late := sent.(inflight := sent.inflight + {event});
      }
    }
    TurnKeeps(late, p, outcome);
    assert PublishedNext(s, p, outcome) == late.(publishers := s.publishers[p := Turn(pub, outcome)]);
  }

  // -------------------------------------------------- committing a publication

  /** Marked rows are consecutive from the first PENDING one, so a marked row leaves none PENDING before it. */
  lemma {:induction false} MarkedFromFront(history: History, outbox: map<Key, OutboxRow>, stream: seq<Event>,
                                           pub: Publisher, x: Uuid, n: nat, m: nat)
    requires OutboxOk(history, outbox) && PendingSuffix(history, outbox) && PublisherOk(outbox, stream, pub)
    requires IsPending(outbox, Key(x, n)) && Key(x, m) in pub.marked && n <= m
    ensures Key(x, n) in pub.marked
    decreases m
  {
    if n < m {
      MarkedIsPending(outbox, stream, pub, Key(x, m));
      MarkedPrior(history, outbox, pub.marked, x, n, m);
      MarkedFromFront(history, outbox, stream, pub, x, n, m - 1);
    }
  }

  lemma MarkedIsPending(outbox: map<Key, OutboxRow>, stream: seq<Event>, pub: Publisher, k: Key)
    requires PublisherOk(outbox, stream, pub) && k in pub.marked
    ensures IsPending(outbox, k) && Chained(outbox, pub.marked, k)
  {
    var i :| 0 <= i < |pub.batch| && pub.batch[i] == k;
  }

  lemma MarkedPrior(history: History, outbox: map<Key, OutboxRow>, marked: set<Key>, x: Uuid, n: nat, m: nat)
    requires OutboxOk(history, outbox) && PendingSuffix(history, outbox)
    requires IsPending(outbox, Key(x, n)) && IsPending(outbox, Key(x, m)) && n < m && Chained(outbox, marked, Key(x, m))
    ensures Key(x, m - 1) in marked
  {
    assert Durable(history, outbox[Key(x, m)].event) && KeyOf(outbox[Key(x, m)].event) == Key(x, m);
    assert IsPending(outbox, Key(x, m - 1));
  }

  function CommitRows(pub: Publisher, outbox: map<Key, OutboxRow>): map<Key, OutboxRow> {
    map k | k in outbox :: CommitRow(pub, k, outbox[k])
  }

  lemma CommitRowsOutbox(history: History, outbox: map<Key, OutboxRow>, pub: Publisher)
    requires OutboxOk(history, outbox)
    ensures OutboxOk(history, CommitRows(pub, outbox))
  {
    var after := CommitRows(pub, outbox);
    forall k | k in after ensures Durable(history, after[k].event) && KeyOf(after[k].event) == k {
      assert after[k].event == outbox[k].event;
    }
  }

  lemma CommitMarks(history: History, outbox: map<Key, OutboxRow>, stream: seq<Event>, pub: Publisher)
    requires OutboxOk(history, outbox) && PendingSuffix(history, outbox) && PublishedSeen(history, outbox, stream)
    requires PublisherOk(outbox, stream, pub)
    ensures var after := CommitRows(pub, outbox);
      PendingSuffix(history, after) && PublishedSeen(history, after, stream)
  {
    var after := CommitRows(pub, outbox);
    forall x, n: nat, m: nat | IsPending(after, Key(x, n)) && n <= m <= |Of(history, x)|
      ensures IsPending(after, Key(x, m))
    {
      CommitRowsPending(pub, outbox, Key(x, n));
      CommitRowsPending(pub, outbox, Key(x, m));
      if Key(x, m) in pub.marked {
        MarkedFromFront(history, outbox, stream, pub, x, n, m);
      }
    }
    forall x, n | 1 <= n <= |Of(history, x)| && !IsPending(after, Key(x, n)) ensures Seen(stream, |stream|, x, n) {
      CommitRowsPending(pub, outbox, Key(x, n));
    }
  }

  lemma CommitRowsPending(pub: Publisher, outbox: map<Key, OutboxRow>, k: Key)
    ensures IsPending(CommitRows(pub, outbox), k) <==> IsPending(outbox, k) && k !in pub.marked
  {
  }

  lemma OthersKeepRows(outbox: map<Key, OutboxRow>, stream: seq<Event>, publishers: map<nat, Publisher>, p: nat)
    requires PublishersOk(outbox, stream, publishers) && p in publishers
    ensures PublishersOk(CommitRows(publishers[p], outbox), stream, publishers - {p})
  {
    var pub := publishers[p];
    var after := CommitRows(pub, outbox);
    assert PublisherOk(outbox, stream, pub);
    forall q | q in publishers - {p} ensures PublisherOk(after, stream, publishers[q]) {
      var other := publishers[q];
      assert PublisherOk(outbox, stream, other);
      forall k, m: nat | k in other.batch
        ensures IsPending(after, Key(k.execution, m)) <==> IsPending(outbox, Key(k.execution, m))
      {
        NotMarked(publishers, p, q, k, Key(k.execution, m));
      }
      forall k | k in other.batch ensures IsPending(after, k) && (Front(outbox, k) ==> Front(after, k)) {
        assert IsPending(after, Key(k.execution, k.sequence));
      }
      OrderTransfers(outbox, after, other);
      forall i | 0 <= i < |other.heads| ensures Front(after, other.heads[i]) {
        assert other.heads[i] == other.batch[i];
      }
    }
  }

  lemma NotMarked(publishers: map<nat, Publisher>, p: nat, q: nat, k: Key, row: Key)
    requires OneHolder(publishers) && p in publishers && q in publishers && p != q
    requires k in publishers[q].batch && row.execution == k.execution
    ensures row !in publishers[p].batch
  {
    var j :| 0 <= j < |publishers[q].batch| && publishers[q].batch[j] == k;
  }

  lemma CommitPublisherKeeps(s: State, p: nat)
    requires Inv(s) && p in s.publishers
    ensures Inv(BatchCommitted(s, p))
  {
    var pub := s.publishers[p];
    assert PublisherOk(s.outbox, s.stream, pub);
    assert BatchCommitted(s, p).outbox == CommitRows(pub, s.outbox);
    CommitRowsOutbox(s.history, s.outbox, pub);
    CommitMarks(s.history, s.outbox, s.stream, pub);
    OthersKeepRows(s.outbox, s.stream, s.publishers, p);
  }

  lemma CrashPublisherKeeps(s: State, p: nat)
    requires Inv(s) && p in s.publishers
    ensures Inv(s.(publishers := s.publishers - {p}))
  {
  }

  lemma DeletePublishers(outbox: map<Key, OutboxRow>, keys: set<Key>, stream: seq<Event>,
                         publishers: map<nat, Publisher>)
    requires PublishersOk(outbox, stream, publishers)
    requires forall k :: k in keys ==> k in outbox && outbox[k].status.Published?
    ensures PublishersOk(outbox - keys, stream, publishers)
  {
    forall k ensures IsPending(outbox - keys, k) <==> IsPending(outbox, k) {
    }
    forall p | p in publishers ensures PublisherOk(outbox - keys, stream, publishers[p]) {
      var pub := publishers[p];
      assert PublisherOk(outbox, stream, pub);
      forall k ensures Front(outbox - keys, k) <==> Front(outbox, k) {
      }
      OrderTransfers(outbox, outbox - keys, pub);
    }
  }

  lemma DeletePublishedKeeps(s: State, keys: set<Key>)
    requires Inv(s) && forall k :: k in keys ==> k in s.outbox && s.outbox[k].status.Published?
    ensures Inv(s.(outbox := s.outbox - keys))
  {
    forall k ensures IsPending(s.outbox - keys, k) <==> IsPending(s.outbox, k) {
    }
    DeletePublishers(s.outbox, keys, s.stream, s.publishers);
  }
}
