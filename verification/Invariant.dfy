/** What every step of the event protocol keeps. */
module Invariant {
  import opened Json
  import opened Events
  import opened Protocol

  // ------------------------------------------------------------- the writers

  /** `e` fills slot `n` of Execution `x`, under an id drawn for that slot. */
  predicate Fits(issued: map<Uuid, Key>, e: Event, x: Uuid, n: nat) {
    e.execution == x && e.sequence == n && e.id in issued && issued[e.id] == Key(x, n) && WellFormed(e.payload)
  }

  /** Durable events of an Execution are numbered 1, 2, 3, ... without gaps, and so are open drafts. */
  ghost predicate HistoryOk(issued: map<Uuid, Key>, counters: map<Uuid, nat>, history: History) {
    && (forall x :: Counter(counters, x) == |Of(history, x)|)
    && (forall x, i :: 0 <= i < |Of(history, x)| ==> Fits(issued, Of(history, x)[i], x, i + 1))
  }

  ghost predicate WritersOk(issued: map<Uuid, Key>, history: History, writers: map<Uuid, seq<Event>>) {
    forall x, i :: 0 <= i < |Of(writers, x)| ==> Fits(issued, Of(writers, x)[i], x, |Of(history, x)| + i + 1)
  }

  predicate Durable(history: History, e: Event) {
    1 <= e.sequence <= |Of(history, e.execution)| && Of(history, e.execution)[e.sequence - 1] == e
  }

  // -------------------------------------------------------------- the Outbox

  ghost predicate OutboxOk(history: History, outbox: map<Key, OutboxRow>) {
    forall k :: k in outbox ==> Durable(history, outbox[k].event) && KeyOf(outbox[k].event) == k
  }

  /** The PENDING rows of an Execution are its last events, so published ones form a prefix. */
  ghost predicate PendingSuffix(history: History, outbox: map<Key, OutboxRow>) {
    forall x, n: nat, m: nat ::
      IsPending(outbox, Key(x, n)) && n <= m <= |Of(history, x)| ==> IsPending(outbox, Key(x, m))
  }

  // -------------------------------------------------------------- the Stream

  /** Sequence `n` of `x` occurs among the first `upTo` messages; there is nothing to wait for before 1. */
  predicate Seen(stream: seq<Event>, upTo: int, x: Uuid, n: int) {
    n == 0 || exists j :: 0 <= j < upTo && j < |stream| && stream[j].execution == x && stream[j].sequence == n
  }

  predicate InOrder(stream: seq<Event>, i: nat)
    requires i < |stream|
  {
    Seen(stream, i, stream[i].execution, stream[i].sequence - 1)
  }

  /** Every message is a durable event whose predecessor was added before it. */
  ghost predicate StreamOk(history: History, stream: seq<Event>) {
    && (forall i :: 0 <= i < |stream| ==> Durable(history, stream[i]))
    && (forall i {:trigger InOrder(stream, i)} :: 0 <= i < |stream| ==> InOrder(stream, i))
  }

  /** An event that is no longer PENDING has been added to the Stream. */
  ghost predicate PublishedSeen(history: History, outbox: map<Key, OutboxRow>, stream: seq<Event>) {
    forall x, n :: 1 <= n <= |Of(history, x)| && !IsPending(outbox, Key(x, n)) ==> Seen(stream, |stream|, x, n)
  }

  /** Adding `e` now keeps the order of first occurrences. */
  predicate MayFollow(history: History, stream: seq<Event>, e: Event) {
    Durable(history, e) && Seen(stream, |stream|, e.execution, e.sequence - 1)
  }

  ghost predicate InflightOk(history: History, stream: seq<Event>, inflight: set<Event>) {
    forall e :: e in inflight ==> MayFollow(history, stream, e)
  }

  // ---------------------------------------------------------- the publishers

  /** `k` is the first PENDING row of its Execution, as nothing PENDING comes right before it. */
  predicate Front(outbox: map<Key, OutboxRow>, k: Key) {
    k.sequence == 0 || !IsPending(outbox, Key(k.execution, k.sequence - 1))
  }

  predicate Prior(keys: seq<Key>, upTo: int, k: Key) {
    k.sequence > 0 && Among(keys, upTo, Key(k.execution, k.sequence - 1))
  }

  predicate Ordered(outbox: map<Key, OutboxRow>, batch: seq<Key>, i: nat)
    requires i < |batch|
  {
    Front(outbox, batch[i]) || Prior(batch, i, batch[i])
  }

  /** A batch holds, for each Execution, consecutive PENDING rows in order from the first one on. */
  ghost predicate BatchOk(outbox: map<Key, OutboxRow>, batch: seq<Key>) {
    && (forall i :: 0 <= i < |batch| ==> IsPending(outbox, batch[i]))
    && (forall i {:trigger Ordered(outbox, batch, i)} :: 0 <= i < |batch| ==> Ordered(outbox, batch, i))
  }

  predicate Chained(outbox: map<Key, OutboxRow>, marked: set<Key>, k: Key) {
    Front(outbox, k) || (k.sequence > 0 && Key(k.execution, k.sequence - 1) in marked)
  }

  /** Marked rows were sent, and are consecutive from the first PENDING one. */
  ghost predicate MarksOk(outbox: map<Key, OutboxRow>, stream: seq<Event>, pub: Publisher) {
    && (forall k :: k in pub.marked ==> k in pub.batch && Seen(stream, |stream|, k.execution, k.sequence))
    && (forall k {:trigger Chained(outbox, pub.marked, k)} :: k in pub.marked ==> Chained(outbox, pub.marked, k))
    && (forall i :: 0 <= i < pub.next && i < |pub.batch| ==>
          pub.batch[i] in pub.marked || pub.batch[i].execution in pub.blocked)
    && (forall k :: k in pub.delayed ==> k in pub.batch)
  }

  ghost predicate PublisherOk(outbox: map<Key, OutboxRow>, stream: seq<Event>, pub: Publisher) {
    && pub.next <= |pub.batch|
    && BatchOk(outbox, pub.batch)
    && MarksOk(outbox, stream, pub)
    && pub.heads <= pub.batch
    && (!pub.extended ==> pub.batch == pub.heads && pub.next == 0)
    && (forall i :: 0 <= i < |pub.heads| ==> Front(outbox, pub.heads[i]))
  }

  /** Row locks let at most one publisher hold rows of an Execution. */
  ghost predicate OneHolder(publishers: map<nat, Publisher>) {
    forall p, q, i, j ::
      p in publishers && q in publishers && p != q
      && 0 <= i < |publishers[p].batch| && 0 <= j < |publishers[q].batch| ==>
        publishers[p].batch[i].execution != publishers[q].batch[j].execution
  }

  ghost predicate PublishersOk(outbox: map<Key, OutboxRow>, stream: seq<Event>, publishers: map<nat, Publisher>) {
    && (forall p :: p in publishers ==> PublisherOk(outbox, stream, publishers[p]))
    && OneHolder(publishers)
  }

  // -------------------------------------------------------------- the Agents

  ghost predicate GroupOk(stream: seq<Event>, trimmed: nat, group: Group) {
    && trimmed <= |stream|
    && group.start <= group.delivered <= |stream|
    && (!group.created ==> group.start == group.delivered)
    && (forall i :: i in group.pending ==> group.start <= i < group.delivered)
    && (forall i :: i in group.acked ==> group.start <= i < group.delivered && i !in group.pending)
    && (forall i :: group.start <= i < group.delivered ==> i in group.pending || i in group.acked || i < trimmed)
  }

  /** The store holds exactly the first events of `x`, and the state row is the last one's. */
  predicate DbRowsOk(history: History, db: AgentDb, x: Uuid) {
    && LastSequence(db, x) <= |Of(history, x)|
    && RowsOf(db.consumed, x) == Rows(Of(history, x)[..LastSequence(db, x)])
    && (x in db.states ==>
          db.states[x].lastSequence > 0 && db.states[x] == StateOf(Of(history, x)[LastSequence(db, x) - 1]))
  }

  ghost predicate DbOk(history: History, db: AgentDb) {
    forall x :: DbRowsOk(history, db, x)
  }

  predicate Applied(db: AgentDb, e: Event) {
    e.sequence <= LastSequence(db, e.execution)
  }

  ghost predicate AckedOk(stream: seq<Event>, group: Group, db: AgentDb) {
    forall i :: i in group.acked && i < |stream| ==> Applied(db, stream[i])
  }

  predicate ConsumerOk(stream: seq<Event>, group: Group, db: AgentDb, consumer: Consumer) {
    && (forall i :: 0 <= i < |consumer.queue| ==>
          group.start <= consumer.queue[i] < group.delivered && group.delivered <= |stream|)
    && (consumer.queue == [] ==> consumer.phase.Waiting?)
    && (consumer.queue != [] && consumer.phase.Read? ==>
          consumer.phase.last <= LastSequence(db, stream[consumer.queue[0]].execution))
    && (consumer.queue != [] && consumer.phase.Settled? ==> Applied(db, stream[consumer.queue[0]]))
  }

  ghost predicate ConsumersOk(stream: seq<Event>, group: Group, db: AgentDb, consumers: map<nat, Consumer>) {
    forall c :: c in consumers ==> ConsumerOk(stream, group, db, consumers[c])
  }

  ghost predicate Inv(s: State) {
    && HistoryOk(s.issued, s.counters, s.history)
    && WritersOk(s.issued, s.history, s.writers)
    && OutboxOk(s.history, s.outbox)
    && PendingSuffix(s.history, s.outbox)
    && StreamOk(s.history, s.stream)
    && PublishedSeen(s.history, s.outbox, s.stream)
    && InflightOk(s.history, s.stream, s.inflight)
    && PublishersOk(s.outbox, s.stream, s.publishers)
    && GroupOk(s.stream, s.trimmed, s.group)
    && DbOk(s.history, s.db)
    && AckedOk(s.stream, s.group, s.db)
    && ConsumersOk(s.stream, s.group, s.db, s.consumers)
  }
}
