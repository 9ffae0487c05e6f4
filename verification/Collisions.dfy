/** The two statements of `_apply_once` are not one: consumers that share a store can both SELECT before
    either INSERTs, and then the second INSERT meets the primary key. */
module Collisions {
  import opened Json
  import opened Events
  import opened Protocol
  import opened Recovery
  import opened Runs

  /** `c` is about to INSERT the next event, as far as its SELECT said, and the primary key refuses. */
  predicate Collides(s: State, c: nat) {
    && Handling(s, c) && s.consumers[c].phase.Read?
    && (var e := s.stream[s.consumers[c].queue[0]];
        Judge(e.sequence, s.consumers[c].phase.last) == Next && Recorded(s.db, e.id))
  }

  /** Message `id` is pending and carries the next event of its Execution. */
  predicate NextUp(s: State, id: nat) {
    && id in s.group.pending && s.group.created && s.trimmed <= id < |s.stream|
    && s.stream[id].sequence == LastSequence(s.db, s.stream[id].execution) + 1
    && !Recorded(s.db, s.stream[id].id)
  }

  lemma ClaimAndRead(s: State, c: nat, id: nat)
    requires NextUp(s, id) && CanFetch(s, c)
    ensures var last := LastSequence(s.db, s.stream[id].execution);
      Leads(s, [Claim(c, [id]), ReadLast(c)], s.(consumers := s.consumers[c := Protocol.Consumer([id], Read(last))]))
  {
    var claimed := s.(consumers := s.consumers[c := Protocol.Consumer([id], Waiting)]);
    ClaimStep(s, c, [id]);
    ReadStep(claimed, c);
    Join(s, [Claim(c, [id])], claimed, [ReadLast(c)], LastRead(claimed, c));
    assert [Claim(c, [id])] + [ReadLast(c)] == [Claim(c, [id]), ReadLast(c)];
    assert LastRead(claimed, c).consumers
        == s.consumers[c := Protocol.Consumer([id], Read(LastSequence(s.db, s.stream[id].execution)))];
  }

  lemma BothRead(s: State, c: nat, d: nat, id: nat) returns (steps: seq<Step>, t: State)
    requires NextUp(s, id) && CanFetch(s, c) && CanFetch(s, d) && c != d
    ensures Leads(s, steps, t) && t == s.(consumers := t.consumers) && c in t.consumers && d in t.consumers
    ensures t.consumers[c] == t.consumers[d]
         == Protocol.Consumer([id], Read(LastSequence(s.db, s.stream[id].execution)))
  {
    var reading := Protocol.Consumer([id], Read(LastSequence(s.db, s.stream[id].execution)));
    var mid := s.(consumers := s.consumers[c := reading]);
    ClaimAndRead(s, c, id);
    ClaimAndRead(mid, d, id);
    t := mid.(consumers := mid.consumers[d := reading]);
    Join(s, [Claim(c, [id]), ReadLast(c)], mid, [Claim(d, [id]), ReadLast(d)], t);
    steps := [Claim(c, [id]), ReadLast(c)] + [Claim(d, [id]), ReadLast(d)];
  }

  /** Wherever the next event of an Execution is pending, two free consumers can collide on it: both claim
      it, both read, one writes. */
  lemma CollisionFrom(s: State, c: nat, d: nat, id: nat) returns (steps: seq<Step>, t: State)
    requires NextUp(s, id) && CanFetch(s, c) && CanFetch(s, d) && c != d
    ensures Leads(s, steps, t) && Collides(t, d)
  {
    var first, both := BothRead(s, c, d, id);
    SettleStep(both, c);
    t := AfterSettle(both, c);
    Join(s, first, both, [Settle(c)], t);
    steps := first + [Settle(c)];
    assert t.db == Record(s.db, s.stream[id]);
    assert t.db.consumed[|s.db.consumed|].eventId == s.stream[id].id;
  }

  /** A group from the start of a Stream of one message, and a consumer that has been given it. */
  lemma Give(s: State) returns (steps: seq<Step>, t: State)
    requires s.group == Group(false, 0, 0, {}, {}) && |s.stream| == 1 && s.trimmed == 0 && s.consumers == map[]
    ensures Leads(s, steps, t)
    ensures t == s.(group := Group(true, 0, 1, {0}, {}), consumers := map[2 := Protocol.Consumer([0], Waiting)])
  {
    var grouped := GroupCreated(s, true);
    GroupStep(s, true);
    DeliverStep(grouped, 2, 20);
    t := Delivered(grouped, 2, 20);
    assert Range(0, 1) == [0];
    assert ToSet([0]) == {0};
    Join(s, [CreateGroup(true)], grouped, [Deliver(2, 20)], t);
    steps := [CreateGroup(true)] + [Deliver(2, 20)];
  }

  /** From the empty system: store an event, publish it, deliver it to a consumer that stops, and let two
      others reclaim it at once. */
  lemma CollisionIsReachable(e: Event) returns (t: State)
    requires e.sequence == 1 && WellFormed(e.payload)
    ensures Reachable(t) && Collides(t, 1)
  {
    var first, published := StoreAndPublish(INIT, e);
    var second, given := Give(published);
    var third;
    third, t := CollisionFrom(given, 0, 1, 0);
    Join(INIT, first, published, second, given);
    Join(INIT, first + second, given, third, t);
  }
}
