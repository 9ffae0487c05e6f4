/** The path of an event from the transaction that persists it to the Agent that applies it, as a
    system of atomic steps: event writers, any number of Outbox publishers with their database
    transactions and row locks, the Redis Stream with one consumer group, and any number of Agent
    consumers that share one store. Every process may stop at any point. */
module Protocol {
  import opened Json
  import opened Events

  /** `execution_events`, by Execution in commit order. */
  type History = map<Uuid, seq<Event>>

  datatype RowStatus = Pending | Published

  datatype OutboxRow = OutboxRow(event: Event, status: RowStatus, availableAt: nat)

  /** One open `publish_batch` transaction. Its row locks are the keys of `batch`. */
  datatype Publisher = Publisher(
    now: nat,
    heads: seq<Key>,        // rows of the first query
    batch: seq<Key>,        // heads, then followers
    extended: bool,         // the follower query has run
    next: nat,              // position of the publishing loop
    marked: set<Key>,       // set to PUBLISHED, not committed yet
    delayed: map<Key, nat>, // new available_at of rows that failed
    blocked: set<Uuid>,     // blocked_aggregates
    stopped: bool)          // the loop broke off on a network error

  datatype Group = Group(created: bool, start: nat, delivered: nat, pending: set<nat>, acked: set<nat>)

  datatype Phase = Waiting | Read(last: nat) | Settled

  /** A running Agent consumer: messages fetched and not yet dealt with, and where it is with the first. */
  datatype Consumer = Consumer(queue: seq<nat>, phase: Phase)

  datatype State = State(
    issued: map<Uuid, Key>,            // every event id ever drawn and the slot it was drawn for
    counters: map<Uuid, nat>,          // execution_event_sequences
    history: History,
    writers: map<Uuid, seq<Event>>,    // open event transactions; the counter row lock allows one per Execution
    outbox: map<Key, OutboxRow>,
    publishers: map<nat, Publisher>,
    inflight: set<Event>,              // XADD commands of unknown outcome: each may still reach the Stream
    stream: seq<Event>,                // every message ever added, in Stream order
    trimmed: nat,                      // messages below this position are deleted
    group: Group,
    consumers: map<nat, Consumer>,
    db: AgentDb)

  /** What became of one XADD. */
  datatype Outcome =
    | Sent
    | Refused(retryAt: nat)                // failed before XADD; the loop goes on
    | Unknown(landed: bool, retryAt: nat)  // timeout or connection error; the loop breaks

  datatype Step =
    | Persist(execution: Uuid, id: Uuid, eventType: string, payload: Json, occurredAt: nat)
    | CommitWriter(execution: Uuid)
    | AbortWriter(execution: Uuid)
    | SelectHeads(p: nat, now: nat, heads: seq<Key>)
    | SelectFollowers(p: nat, followers: seq<Key>)
    | PublishNext(p: nat, outcome: Outcome)
    | LateArrival(event: Event)
    | CommitPublisher(p: nat)
    | CrashPublisher(p: nat)
    | DeletePublished(keys: set<Key>)
    | Trim(upTo: nat)
    | CreateGroup(fromStart: bool)
    | Deliver(c: nat, count: nat)
    | Claim(c: nat, ids: seq<nat>)
    | ReadLast(c: nat)
    | Settle(c: nat)
    | Ack(c: nat)
    | CrashConsumer(c: nat)

  const INIT := State(map[], map[], map[], map[], map[], map[], {}, [], 0, Group(false, 0, 0, {}, {}), map[], EMPTY_DB)

  // ------------------------------------------------------------------ queries

  function Of(history: map<Uuid, seq<Event>>, x: Uuid): seq<Event> {
    if x in history then history[x] else []
  }

  function Counter(counters: map<Uuid, nat>, x: Uuid): nat {
    if x in counters then counters[x] else 0
  }

  predicate IsPending(outbox: map<Key, OutboxRow>, k: Key) {
    k in outbox && outbox[k].status.Pending?
  }

  /** The WHERE clause of the first publisher query: due, and no earlier PENDING row of its Execution. */
  predicate IsHead(outbox: map<Key, OutboxRow>, now: nat, k: Key) {
    && IsPending(outbox, k)
    && outbox[k].availableAt <= now
    && forall e :: e in outbox && e.execution == k.execution && e.sequence < k.sequence ==> !IsPending(outbox, e)
  }

  predicate LockedByOther(publishers: map<nat, Publisher>, p: nat, k: Key) {
    exists q :: q in publishers && q != p && k in publishers[q].batch
  }

  /** The WHERE clause of the follower query, rows locked elsewhere skipped. */
  predicate IsFollower(s: State, p: nat, k: Key)
    requires p in s.publishers
  {
    var pub := s.publishers[p];
    && IsPending(s.outbox, k)
    && s.outbox[k].availableAt <= pub.now
    && (exists h :: h in pub.heads && h.execution == k.execution)
    && k !in pub.heads
    && (forall e ::
          (e in s.outbox && e.execution == k.execution && e.sequence < k.sequence
          && IsPending(s.outbox, e) && e !in pub.heads) ==> s.outbox[e].availableAt <= pub.now)
    && !LockedByOther(s.publishers, p, k)
  }

  predicate Before(a: Key, b: Key) {
    a.execution < b.execution || (a.execution == b.execution && a.sequence < b.sequence)
  }

  predicate Among(keys: seq<Key>, upTo: int, k: Key) {
    exists i :: 0 <= i < upTo && i < |keys| && keys[i] == k
  }

  /** ORDER BY aggregate, sequence LIMIT n, for some n: an initial stretch of the ordered result. */
  ghost predicate IsFollowerBatch(s: State, p: nat, followers: seq<Key>)
    requires p in s.publishers
  {
    && (forall i :: 0 <= i < |followers| ==> IsFollower(s, p, followers[i]))
    && (forall i, j :: 0 <= i < j < |followers| ==> Before(followers[i], followers[j]))
    && (forall k, i ::
          0 <= i < |followers| && IsFollower(s, p, k) && Before(k, followers[i]) ==> Among(followers, i, k))
  }

  // -------------------------------------------------------------------- steps

  function Draft(s: State, step: Step): Event
    requires step.Persist?
  {
    var drafts := Of(s.writers, step.execution);
    Event(step.id, step.execution, Counter(s.counters, step.execution) + |drafts| + 1,
          step.eventType, step.payload, step.occurredAt)
  }

  function NewRow(event: Event): OutboxRow {
    OutboxRow(event, Pending, event.occurredAt)
  }

  /** The Outbox rows of a transaction's events, which took the slots after `counter`. */
  function NewRows(x: Uuid, counter: nat, drafts: seq<Event>): (rows: map<Key, OutboxRow>)
    ensures forall k :: k in rows <==> k.execution == x && counter < k.sequence <= counter + |drafts|
    ensures forall k :: k in rows ==> rows[k] == NewRow(drafts[k.sequence - counter - 1])
  {
    if |drafts| == 0 then map[] else
      NewRows(x, counter, drafts[..|drafts| - 1])[Key(x, counter + |drafts|) := NewRow(drafts[|drafts| - 1])]
  }

  /** One turn of the publishing loop. */
  function Turn(pub: Publisher, outcome: Outcome): Publisher
    requires pub.next < |pub.batch|
  {
    var key := pub.batch[pub.next];
    if key.execution in pub.blocked then
      pub.(next := pub.next + 1)
    else
      match outcome
      case Sent => pub.(next := pub.next + 1, marked := pub.marked + {key})
      case Refused(retryAt) =>
        pub.(next := pub.next + 1, blocked := pub.blocked + {key.execution}, delayed := pub.delayed[key := retryAt])
      case Unknown(_, retryAt) =>
        pub.(next := pub.next + 1, blocked := pub.blocked + {key.execution}, delayed := pub.delayed[key := retryAt],
             stopped := true)
  }

  /** Whether this turn puts its message on the Stream. */
  predicate Adds(pub: Publisher, outcome: Outcome)
    requires pub.next < |pub.batch|
  {
    pub.batch[pub.next].execution !in pub.blocked && (outcome.Sent? || (outcome.Unknown? && outcome.landed))
  }

  predicate MayAddLater(pub: Publisher, outcome: Outcome)
    requires pub.next < |pub.batch|
  {
    pub.batch[pub.next].execution !in pub.blocked && outcome.Unknown?
  }

  function CommitRow(pub: Publisher, k: Key, row: OutboxRow): OutboxRow {
    if k in pub.marked then row.(status := Published)
    else if k in pub.delayed then row.(availableAt := pub.delayed[k])
    else row
  }

  function Max(a: nat, b: nat): nat {
    if a < b then b else a
  }

  function Range(lo: nat, hi: nat): (r: seq<nat>)
    requires lo <= hi
    ensures |r| == hi - lo && forall i :: 0 <= i < |r| ==> r[i] == lo + i
  {
    seq(hi - lo, i requires 0 <= i < hi - lo => lo + i)
  }

  function ToSet(ids: seq<nat>): set<nat> {
    set i | i in ids
  }

  // ----------------------------------------------- effects of the single steps

  function Persisted(s: State, step: Step): State
    requires step.Persist?
  {
    var event := Draft(s, step);
    s.(issued := s.issued[event.id := KeyOf(event)],
       writers := s.writers[event.execution := Of(s.writers, event.execution) + [event]])
  }

  function Committed(s: State, x: Uuid): State
    requires x in s.writers
  {
    var drafts := s.writers[x];
    s.(counters := s.counters[x := Counter(s.counters, x) + |drafts|],
       history := s.history[x := Of(s.history, x) + drafts],
       outbox := s.outbox + NewRows(x, Counter(s.counters, x), drafts),
       writers := s.writers - {x})
  }

  ghost predicate CanSelectHeads(s: State, p: nat, now: nat, heads: seq<Key>) {
    && p !in s.publishers
    && (forall i, j :: 0 <= i < j < |heads| ==> heads[i] != heads[j])
    && (forall i :: 0 <= i < |heads| ==> IsHead(s.outbox, now, heads[i]) && !LockedByOther(s.publishers, p, heads[i]))
  }

  function HeadsSelected(s: State, p: nat, now: nat, heads: seq<Key>): State {
    s.(publishers := s.publishers[p := Publisher(now, heads, heads, false, 0, {}, map[], {}, false)])
  }

  function FollowersSelected(s: State, p: nat, followers: seq<Key>): State
    requires p in s.publishers
  {
    var pub := s.publishers[p];
    s.(publishers := s.publishers[p := pub.(batch := pub.heads + followers, extended := true)])
  }

  predicate CanPublish(s: State, p: nat) {
    && p in s.publishers && s.publishers[p].extended && !s.publishers[p].stopped
    && s.publishers[p].next < |s.publishers[p].batch|
    && s.publishers[p].batch[s.publishers[p].next] in s.outbox
  }

  function PublishedNext(s: State, p: nat, outcome: Outcome): State
    requires CanPublish(s, p)
  {
    var pub := s.publishers[p];
    var event := s.outbox[pub.batch[pub.next]].event;
    s.(publishers := s.publishers[p := Turn(pub, outcome)],
       stream := if Adds(pub, outcome) then s.stream + [event] else s.stream,
       inflight := if MayAddLater(pub, outcome) then s.inflight + {event} else s.inflight)
  }

  predicate CanCommit(s: State, p: nat) {
    && p in s.publishers && s.publishers[p].extended
    && (s.publishers[p].stopped || s.publishers[p].next == |s.publishers[p].batch|)
  }

  function BatchCommitted(s: State, p: nat): State
    requires p in s.publishers
  {
    s.(outbox := map k | k in s.outbox :: CommitRow(s.publishers[p], k, s.outbox[k]),
       publishers := s.publishers - {p})
  }

  function GroupCreated(s: State, fromStart: bool): State {
    var start := if fromStart then 0 else |s.stream|;
    s.(group := Group(true, start, start, {}, {}))
  }

  predicate CanFetch(s: State, c: nat) {
    s.group.created && (c in s.consumers ==> s.consumers[c].queue == [])
  }

  /** XREADGROUP with `>`: the next messages that still exist become pending. */
  function Delivered(s: State, c: nat, count: nat): State {
    var lo := Max(s.group.delivered, s.trimmed);
    var hi := if lo + count <= |s.stream| then lo + count else Max(lo, |s.stream|);
    s.(group := s.group.(delivered := hi, pending := s.group.pending + ToSet(Range(lo, hi))),
       consumers := s.consumers[c := Consumer(Range(lo, hi), Waiting)])
  }

  /** XPENDING filtered by idle time, then XCLAIM: pending messages in Stream order. */
  ghost predicate CanClaim(s: State, c: nat, ids: seq<nat>) {
    && CanFetch(s, c)
    && (forall i, j :: 0 <= i < j < |ids| ==> ids[i] < ids[j])
    && (forall i :: 0 <= i < |ids| ==> ids[i] in s.group.pending && s.trimmed <= ids[i])
  }

  predicate Handling(s: State, c: nat) {
    c in s.consumers && s.consumers[c].queue != [] && s.consumers[c].queue[0] < |s.stream|
  }

  /** The SELECT of `_apply_once`. It opens no transaction, so others may write before the INSERT. */
  function LastRead(s: State, c: nat): State
    requires Handling(s, c)
  {
    var consumer := s.consumers[c];
    var last := LastSequence(s.db, s.stream[consumer.queue[0]].execution);
    s.(consumers := s.consumers[c := consumer.(phase := Read(last))])
  }

  /** The rest of `_apply_once`: a gap leaves the message pending, anything else goes on to the ACK. */
  function AfterSettle(s: State, c: nat): (t: State)
    requires Handling(s, c) && s.consumers[c].phase.Read?
    ensures t == s.(consumers := t.consumers, db := t.db)
  {
    var consumer := s.consumers[c];
    var event := s.stream[consumer.queue[0]];
    match Judge(event.sequence, consumer.phase.last)
    case Duplicate => s.(consumers := s.consumers[c := consumer.(phase := Settled)])
    case Gap => s.(consumers := s.consumers[c := Consumer(consumer.queue[1..], Waiting)])
    case Next => s.(consumers := s.consumers[c := consumer.(phase := Settled)], db := Write(s.db, event))
  }

  function Acked(s: State, c: nat): State
    requires Handling(s, c)
  {
    var consumer := s.consumers[c];
    var id := consumer.queue[0];
    s.(group := s.group.(pending := s.group.pending - {id},
                         acked := if id in s.group.pending then s.group.acked + {id} else s.group.acked),
       consumers := s.consumers[c := Consumer(consumer.queue[1..], Waiting)])
  }

  ghost predicate Enabled(s: State, step: Step) {
    match step
    case Persist(_, id, _, payload, _) => id !in s.issued && WellFormed(payload)
    case CommitWriter(x) => x in s.writers
    case AbortWriter(x) => x in s.writers
    case SelectHeads(p, now, heads) => CanSelectHeads(s, p, now, heads)
    case SelectFollowers(p, followers) =>
      p in s.publishers && !s.publishers[p].extended && IsFollowerBatch(s, p, followers)
    case PublishNext(p, _) => CanPublish(s, p)
    case LateArrival(event) => event in s.inflight
    case CommitPublisher(p) => CanCommit(s, p)
    case CrashPublisher(p) => p in s.publishers
    case DeletePublished(keys) => forall k :: k in keys ==> k in s.outbox && s.outbox[k].status.Published?
    case Trim(upTo) => s.trimmed <= upTo <= |s.stream|
    case CreateGroup(_) => !s.group.created
    case Deliver(c, _) => CanFetch(s, c)
    case Claim(c, ids) => CanClaim(s, c, ids)
    case ReadLast(c) => Handling(s, c) && s.consumers[c].phase.Waiting?
    case Settle(c) => Handling(s, c) && s.consumers[c].phase.Read?
    case Ack(c) => Handling(s, c) && s.consumers[c].phase.Settled?
    case CrashConsumer(c) => c in s.consumers
  }

  ghost function Do(s: State, step: Step): State
    requires Enabled(s, step)
  {
    match step
    case Persist(_, _, _, _, _) => Persisted(s, step)
    case CommitWriter(x) => Committed(s, x)
    case AbortWriter(x) => s.(writers := s.writers - {x})
    case SelectHeads(p, now, heads) => HeadsSelected(s, p, now, heads)
    case SelectFollowers(p, followers) => FollowersSelected(s, p, followers)
    case PublishNext(p, outcome) => PublishedNext(s, p, outcome)
    case LateArrival(event) => s.(stream := s.stream + [event])
    case CommitPublisher(p) => BatchCommitted(s, p)
    case CrashPublisher(p) => s.(publishers := s.publishers - {p})
    case DeletePublished(keys) => s.(outbox := s.outbox - keys)
    case Trim(upTo) => s.(trimmed := upTo)
    case CreateGroup(fromStart) => GroupCreated(s, fromStart)
    case Deliver(c, count) => Delivered(s, c, count)
    case Claim(c, ids) => s.(consumers := s.consumers[c := Consumer(ids, Waiting)])
    case ReadLast(c) => LastRead(s, c)
    case Settle(c) => AfterSettle(s, c)
    case Ack(c) => Acked(s, c)
    case CrashConsumer(c) => s.(consumers := s.consumers - {c})
  }

  /** `steps`, each enabled where it is taken, lead from `s` to `t`. */
  ghost predicate Leads(s: State, steps: seq<Step>, t: State)
    decreases |steps|
  {
    if |steps| == 0 then s == t
    else Enabled(s, steps[0]) && Leads(Do(s, steps[0]), steps[1..], t)
  }

  /** Every state some run can be in. */
  ghost predicate Reachable(s: State) {
    exists steps :: Leads(INIT, steps, s)
  }
}
