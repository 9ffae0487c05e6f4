/** Runs that build up a state event by event: a transaction stores an event, a call of `publish_batch`
    publishes it. */
module Runs {
  import opened Json
  import opened Events
  import opened Protocol
  import opened Recovery
  import opened Batches

  /** No transaction is open and nothing is left to publish. */
  ghost predicate Idle(s: State) {
    s.writers == map[] && s.publishers == map[] && forall k :: !IsPending(s.outbox, k)
  }

  /** `e` is the next event of its Execution, under an id that is new. */
  predicate Fresh(s: State, e: Event) {
    e.id !in s.issued && e.sequence == Counter(s.counters, e.execution) + 1 && WellFormed(e.payload)
  }

  /** The counters after the event. */
  ghost predicate Counted(counters: map<Uuid, nat>, e: Event, after: map<Uuid, nat>) {
    forall y :: Counter(after, y) == if y == e.execution then e.sequence else Counter(counters, y)
  }

  /** `t` is `s` with the event committed and not yet published. */
  ghost predicate Stored(s: State, e: Event, t: State) {
    && t == s.(issued := s.issued[e.id := KeyOf(e)], counters := t.counters,
               history := s.history[e.execution := Of(s.history, e.execution) + [e]],
               outbox := s.outbox[KeyOf(e) := NewRow(e)])
    && Counted(s.counters, e, t.counters)
  }

  function PersistOf(e: Event): Step {
    Persist(e.execution, e.id, e.eventType, e.payload, e.occurredAt)
  }

  lemma PersistedIs(s: State, e: Event)
    requires s.writers == map[] && Fresh(s, e)
    ensures Persisted(s, PersistOf(e))
         == s.(issued := s.issued[e.id := KeyOf(e)], writers := map[e.execution := [e]])
  {
    assert Draft(s, PersistOf(e)) == e;
    assert Of(s.writers, e.execution) + [e] == [e];
  }

  lemma OneRow(outbox: map<Key, OutboxRow>, e: Event)
    requires e.sequence > 0
    ensures outbox + NewRows(e.execution, e.sequence - 1, [e]) == outbox[KeyOf(e) := NewRow(e)]
  {
  }

  lemma CommittedIs(s: State, t: State, e: Event)
    requires s.writers == map[] && Fresh(s, e)
    requires t == s.(issued := s.issued[e.id := KeyOf(e)], writers := map[e.execution := [e]])
    ensures Stored(s, e, Committed(t, e.execution))
  {
    OneRow(s.outbox, e);
    assert t.writers - {e.execution} == map[];
  }

  lemma Store(s: State, e: Event) returns (steps: seq<Step>, t: State)
    requires s.writers == map[] && Fresh(s, e)
    ensures Leads(s, steps, t) && Stored(s, e, t)
  {
    var open := Persisted(s, PersistOf(e));
    PersistedIs(s, e);
    CommittedIs(s, open, e);
    One(s, PersistOf(e));
    One(open, CommitWriter(e.execution));
    t := Committed(open, e.execution);
    Join(s, [PersistOf(e)], open, [CommitWriter(e.execution)], t);
    steps := [PersistOf(e)] + [CommitWriter(e.execution)];
  }

  // ---------------------------------------------------------------- publishing

  /** The event's row is the only PENDING one. */
  ghost predicate OnlyPending(s: State, e: Event) {
    && s.publishers == map[] && IsPending(s.outbox, KeyOf(e)) && s.outbox[KeyOf(e)] == NewRow(e)
    && forall k :: IsPending(s.outbox, k) ==> k == KeyOf(e)
  }

  function Alone(e: Event): (b: Batch)
    ensures b.Keys() == [KeyOf(e)]
  {
    Batch(e.occurredAt, [KeyOf(e)], [])
  }

  lemma AloneIsBatch(s: State, e: Event, limit: nat)
    requires OnlyPending(s, e) && limit > 0
    ensures IsBatch(s, limit, Alone(e))
  {
    var headed := HeadsSelected(s, 0, e.occurredAt, [KeyOf(e)]);
    forall k | Eligible(s, 0, e.occurredAt, k) ensures k == KeyOf(e) {
      assert IsPending(s.outbox, k);
    }
    forall k ensures !IsFollower(headed, 0, k) {
      assert IsPending(s.outbox, k) ==> k == KeyOf(e);
      assert headed.publishers[0].heads[0] == KeyOf(e);
    }
  }

  lemma AloneCalled(s: State, e: Event)
    requires OnlyPending(s, e) && Known(s.outbox, Alone(e).Keys())
    ensures Called(s, Alone(e)).stream == s.stream + [e]
    ensures forall k :: !IsPending(Called(s, Alone(e)).outbox, k)
  {
    var keys := Alone(e).Keys();
    assert SentTo(s.outbox, keys, 0) == [];
    assert SentTo(s.outbox, keys, 1) == [e];
    forall k | k in s.outbox ensures !IsPending(Called(s, Alone(e)).outbox, k) {
      assert IsPending(s.outbox, k) ==> k == KeyOf(e) == keys[0];
    }
  }

  /** A call of any size publishes it. */
  lemma Publish(s: State, e: Event, limit: nat) returns (steps: seq<Step>, t: State)
    requires OnlyPending(s, e) && limit > 0
    ensures Leads(s, steps, t) && t == s.(outbox := t.outbox, stream := s.stream + [e])
    ensures forall k :: !IsPending(t.outbox, k)
  {
    AloneIsBatch(s, e, limit);
    CallIsSteps(s, limit, Alone(e));
    AloneCalled(s, e);
    steps, t := CallSteps(Alone(e)), Called(s, Alone(e));
  }

  lemma StoredAlone(s: State, e: Event, t: State)
    requires Idle(s) && Stored(s, e, t)
    ensures OnlyPending(t, e)
  {
    forall k | IsPending(t.outbox, k) ensures k == KeyOf(e) {
      assert !IsPending(s.outbox, k);
    }
  }

  /** `t` is `s` with the event committed and published. */
  ghost predicate Appended(s: State, e: Event, t: State) {
    && t == s.(issued := s.issued[e.id := KeyOf(e)], counters := t.counters,
               history := s.history[e.execution := Of(s.history, e.execution) + [e]],
               outbox := t.outbox, stream := s.stream + [e])
    && Counted(s.counters, e, t.counters) && Idle(t)
  }

  lemma StoreAndPublish(s: State, e: Event) returns (steps: seq<Step>, t: State)
    requires Idle(s) && Fresh(s, e)
    ensures Leads(s, steps, t) && Appended(s, e, t)
  {
    var first, stored := Store(s, e);
    StoredAlone(s, e, stored);
    var second;
    second, t := Publish(stored, e, 1);
    Join(s, first, stored, second, t);
    steps := first + second;
  }

  // -------------------------------------------------------------- reachability

  lemma InitReachable()
    ensures Reachable(INIT) && Idle(INIT)
  {
    assert Leads(INIT, [], INIT);
  }

  lemma ReachesOn(s: State, steps: seq<Step>, t: State)
    requires Reachable(s) && Leads(s, steps, t)
    ensures Reachable(t)
  {
    var before :| Leads(INIT, before, s);
    Join(INIT, before, s, steps, t);
  }

  lemma ReachesStored(s: State, e: Event) returns (t: State)
    requires Reachable(s) && s.writers == map[] && Fresh(s, e)
    ensures Reachable(t) && Stored(s, e, t)
  {
    var steps;
    steps, t := Store(s, e);
    ReachesOn(s, steps, t);
  }

  lemma ReachesPublished(s: State, e: Event) returns (t: State)
    requires Reachable(s) && Idle(s) && Fresh(s, e)
    ensures Reachable(t) && Appended(s, e, t)
  {
    var steps;
    steps, t := StoreAndPublish(s, e);
    ReachesOn(s, steps, t);
  }

  /** The next events of `x`, under new ids. */
  predicate Line(s: State, x: Uuid, events: seq<Event>) {
    && (forall i :: 0 <= i < |events| ==>
          && events[i].execution == x && events[i].sequence == Counter(s.counters, x) + i + 1
          && WellFormed(events[i].payload) && events[i].id !in s.issued)
    && (forall i, j :: 0 <= i < j < |events| ==> events[i].id != events[j].id)
  }

  /** `t` is `s` after the first `n` of the events. */
  ghost predicate Grown(s: State, x: Uuid, events: seq<Event>, n: nat, t: State)
    requires n <= |events|
  {
    && t == s.(issued := t.issued, counters := t.counters, history := t.history, outbox := t.outbox,
               stream := s.stream + events[..n])
    && Idle(t) && (forall id :: id in t.issued ==> id in s.issued || exists i :: 0 <= i < n && events[i].id == id)
    && (forall y :: Counter(t.counters, y) == Counter(s.counters, y) + if y == x then n else 0)
  }

  lemma GrownFresh(s: State, x: Uuid, events: seq<Event>, n: nat, t: State)
    requires n < |events| && Line(s, x, events) && Grown(s, x, events, n, t)
    ensures Fresh(t, events[n])
  {
  }

  lemma GrownMore(s: State, x: Uuid, events: seq<Event>, n: nat, t: State, u: State)
    requires n < |events| && events[n].execution == x && events[n].sequence == Counter(s.counters, x) + n + 1
    requires Grown(s, x, events, n, t) && Appended(t, events[n], u)
    ensures Grown(s, x, events, n + 1, u)
  {
    assert s.stream + events[..n] + [events[n]] == s.stream + events[..n + 1];
  }

  lemma {:induction false} PublishEach(s: State, x: Uuid, events: seq<Event>, n: nat) returns (t: State)
    requires Reachable(s) && Idle(s) && Line(s, x, events) && n <= |events|
    ensures Reachable(t) && Grown(s, x, events, n, t)
  {
    if n == 0 {
      t := s;
      assert s.stream + events[..0] == s.stream;
    } else {
      var before := PublishEach(s, x, events, n - 1);
      GrownFresh(s, x, events, n - 1, before);
      t := ReachesPublished(before, events[n - 1]);
      GrownMore(s, x, events, n - 1, before, t);
    }
  }
}
