/** Putting runs together, and what a consumer can do with the oldest pending messages: none of them is
    behind a gap, so dealing with them in order acknowledges them all. */
module Recovery {
  import opened Events
  import opened Protocol
  import opened Invariant
  import opened Delivery

  // -------------------------------------------------------------------- runs

  lemma {:induction false} Join(s: State, first: seq<Step>, t: State, second: seq<Step>, u: State)
    requires Leads(s, first, t) && Leads(t, second, u)
    ensures Leads(s, first + second, u)
    decreases |first|
  {
    if |first| == 0 {
      assert first + second == second;
    } else {
      Join(Do(s, first[0]), first[1..], t, second, u);
      assert (first + second)[1..] == first[1..] + second;
    }
  }

  lemma One(s: State, step: Step)
    requires Enabled(s, step)
    ensures Leads(s, [step], Do(s, step))
  {
    assert [step][1..] == [];
  }

  lemma {:induction false} StopPublishers(s: State) returns (steps: seq<Step>)
    ensures Leads(s, steps, s.(publishers := map[]))
    decreases |s.publishers|
  {
    if s.publishers == map[] {
      steps := [];
    } else {
      var p :| p in s.publishers;
      var step := CrashPublisher(p);
      var t := Do(s, step);
      assert t.publishers.Keys == s.publishers.Keys - {p};
      var rest := StopPublishers(t);
      One(s, step);
      Join(s, [step], t, rest, t.(publishers := map[]));
      steps := [step] + rest;
    }
  }

  // -------------------------------------------------------------- consumption

  /** The queue of `c` holds the oldest pending messages, in Stream order. */
  ghost predicate HoldsOldest(s: State, c: nat) {
    && c in s.consumers && s.consumers[c].phase.Waiting?
    && var queue := s.consumers[c].queue;
    && (forall i, j :: 0 <= i < j < |queue| ==> queue[i] < queue[j])
    && (forall i :: 0 <= i < |queue| ==> queue[i] in s.group.pending)
    && (forall m, i :: m in s.group.pending && m !in queue && 0 <= i < |queue| ==> queue[i] < m)
  }

  /** The oldest pending message is never behind a gap: everything before it was acknowledged. */
  lemma OldestHasNoGap(stream: seq<Event>, group: Group, db: AgentDb, history: History, id: nat)
    requires StreamOk(history, stream) && GroupOk(stream, 0, group) && AckedOk(stream, group, db)
    requires group.start == 0 && id in group.pending && forall m :: m in group.pending ==> id <= m
    ensures id < |stream| && stream[id].sequence <= LastSequence(db, stream[id].execution) + 1
  {
    assert InOrder(stream, id);
    if stream[id].sequence - 1 != 0 {
      var j :| 0 <= j < id && j < |stream| && stream[j].execution == stream[id].execution
               && stream[j].sequence == stream[id].sequence - 1;
      assert j in group.acked;
      assert Applied(db, stream[j]);
    }
  }

  lemma OldestFirst(s: State, c: nat)
    requires HoldsOldest(s, c) && s.consumers[c].queue != []
    ensures var id := s.consumers[c].queue[0]; id in s.group.pending && forall m :: m in s.group.pending ==> id <= m
  {
    var queue := s.consumers[c].queue;
    forall m | m in s.group.pending ensures queue[0] <= m {
      if m in queue {
        var i :| 0 <= i < |queue| && queue[i] == m;
      }
    }
  }

  lemma GroupStep(s: State, fromStart: bool)
    requires !s.group.created
    ensures Leads(s, [CreateGroup(fromStart)], GroupCreated(s, fromStart))
  {
    One(s, CreateGroup(fromStart));
  }

  lemma ClaimStep(s: State, c: nat, ids: seq<nat>)
    requires CanClaim(s, c, ids)
    ensures Leads(s, [Claim(c, ids)], s.(consumers := s.consumers[c := Consumer(ids, Waiting)]))
  {
    One(s, Claim(c, ids));
  }

  lemma DeliverStep(s: State, c: nat, count: nat)
    requires CanFetch(s, c)
    ensures Leads(s, [Deliver(c, count)], Delivered(s, c, count))
  {
    One(s, Deliver(c, count));
  }

  lemma ReadStep(s: State, c: nat)
    requires Handling(s, c) && s.consumers[c].phase.Waiting?
    ensures Leads(s, [ReadLast(c)], LastRead(s, c))
  {
    One(s, ReadLast(c));
  }

  lemma SettleStep(s: State, c: nat)
    requires Handling(s, c) && s.consumers[c].phase.Read?
    ensures Leads(s, [Settle(c)], AfterSettle(s, c))
  {
    One(s, Settle(c));
  }

  lemma AckStep(s: State, c: nat)
    requires Handling(s, c) && s.consumers[c].phase.Settled?
    ensures Leads(s, [Ack(c)], Acked(s, c))
  {
    One(s, Ack(c));
  }

  /** The state after `_consume_message` on a message that is not behind a gap. */
  function Consumed(s: State, c: nat): State
    requires Handling(s, c)
  {
    var id := s.consumers[c].queue[0];
    var e := s.stream[id];
    s.(group := s.group.(pending := s.group.pending - {id},
                         acked := if id in s.group.pending then s.group.acked + {id} else s.group.acked),
       consumers := s.consumers[c := Consumer(s.consumers[c].queue[1..], Waiting)],
       db := if Judge(e.sequence, LastSequence(s.db, e.execution)) == Next then Write(s.db, e) else s.db)
  }

  lemma ConsumedInThree(s: State, c: nat)
    requires Handling(s, c) && s.consumers[c].phase.Waiting?
    requires var e := s.stream[s.consumers[c].queue[0]]; e.sequence <= LastSequence(s.db, e.execution) + 1
    ensures var settled := AfterSettle(LastRead(s, c), c);
      Handling(settled, c) && settled.consumers[c].phase.Settled? && Acked(settled, c) == Consumed(s, c)
  {
    var read := LastRead(s, c);
    var settled := AfterSettle(read, c);
    var consumer := s.consumers[c];
    assert settled.consumers == s.consumers[c := consumer.(phase := Settled)];
    assert Acked(settled, c).consumers == s.consumers[c := Consumer(consumer.queue[1..], Waiting)];
  }

  /** `_consume_message` on a message that is not behind a gap acknowledges it. */
  lemma ConsumeSteps(s: State, c: nat)
    requires Handling(s, c) && s.consumers[c].phase.Waiting?
    requires var e := s.stream[s.consumers[c].queue[0]]; e.sequence <= LastSequence(s.db, e.execution) + 1
    ensures Leads(s, [ReadLast(c)] + [Settle(c)] + [Ack(c)], Consumed(s, c))
  {
    var read := LastRead(s, c);
    var settled := AfterSettle(read, c);
    ConsumedInThree(s, c);
    ReadStep(s, c);
    SettleStep(read, c);
    AckStep(settled, c);
    Join(s, [ReadLast(c)], read, [Settle(c)], settled);
    Join(s, [ReadLast(c)] + [Settle(c)], settled, [Ack(c)], Consumed(s, c));
  }

  /** The state after `_consume_message`; a message behind a gap stays pending. */
  function AfterMessage(s: State, c: nat): (t: State)
    requires Handling(s, c)
    ensures t == s.(group := t.group, consumers := t.consumers, db := t.db)
    ensures t.group == s.group.(pending := t.group.pending, acked := t.group.acked)
    ensures t.consumers == s.consumers[c := Consumer(s.consumers[c].queue[1..], Waiting)]
  {
    var consumer := s.consumers[c];
    var e := s.stream[consumer.queue[0]];
    if e.sequence <= LastSequence(s.db, e.execution) + 1 then Consumed(s, c)
    else s.(consumers := s.consumers[c := Consumer(consumer.queue[1..], Waiting)])
  }

  lemma GapInTwo(s: State, c: nat)
    requires Handling(s, c) && s.consumers[c].phase.Waiting?
    requires var e := s.stream[s.consumers[c].queue[0]]; e.sequence > LastSequence(s.db, e.execution) + 1
    ensures AfterSettle(LastRead(s, c), c) == AfterMessage(s, c)
  {
    assert AfterSettle(LastRead(s, c), c).consumers == AfterMessage(s, c).consumers;
  }

  /** Steps of consumer `c` while it deals with messages. */
  predicate Working(step: Step, c: nat) {
    step == ReadLast(c) || step == Settle(c) || step == Ack(c)
  }

  predicate AllWorking(steps: seq<Step>, c: nat) {
    forall i :: 0 <= i < |steps| ==> Working(steps[i], c)
  }

  lemma MessageSteps(s: State, c: nat) returns (steps: seq<Step>)
    requires Handling(s, c) && s.consumers[c].phase.Waiting?
    ensures Leads(s, steps, AfterMessage(s, c)) && AllWorking(steps, c)
  {
    var e := s.stream[s.consumers[c].queue[0]];
    if e.sequence <= LastSequence(s.db, e.execution) + 1 {
      ConsumeSteps(s, c);
      steps := [ReadLast(c)] + [Settle(c)] + [Ack(c)];
    } else {
      var read := LastRead(s, c);
      GapInTwo(s, c);
      ReadStep(s, c);
      SettleStep(read, c);
      Join(s, [ReadLast(c)], read, [Settle(c)], AfterMessage(s, c));
      steps := [ReadLast(c)] + [Settle(c)];
    }
  }

  /** `c` has messages that are on the Stream and has not begun with the first. */
  predicate Ready(s: State, c: nat) {
    c in s.consumers && s.consumers[c].phase.Waiting?
    && forall i :: 0 <= i < |s.consumers[c].queue| ==> s.consumers[c].queue[i] < |s.stream|
  }

  /** The state once `c` has dealt with all messages it has. */
  function AfterQueue(s: State, c: nat): State
    requires Ready(s, c)
    decreases |s.consumers[c].queue|
  {
    if s.consumers[c].queue == [] then s else AfterQueue(AfterMessage(s, c), c)
  }

  lemma {:induction false} QueueFrame(s: State, c: nat)
    requires Ready(s, c)
    ensures var t := AfterQueue(s, c);
      && t == s.(group := t.group, consumers := t.consumers, db := t.db)
      && t.group == s.group.(pending := t.group.pending, acked := t.group.acked)
      && t.consumers == s.consumers[c := Consumer([], Waiting)]
    decreases |s.consumers[c].queue|
  {
    if s.consumers[c].queue == [] {
      assert s.consumers[c := Consumer([], Waiting)] == s.consumers;
    } else {
      var t := AfterMessage(s, c);
      QueueFrame(t, c);
      assert t.consumers[c := Consumer([], Waiting)] == s.consumers[c := Consumer([], Waiting)];
    }
  }

  /** `t` is `s` but for what consumer `c` does to the group and the store; `c` is done. */
  predicate Leaves(s: State, t: State, c: nat) {
    && t == s.(group := t.group, consumers := t.consumers, db := t.db)
    && t.group.created == s.group.created && t.group.start == s.group.start
    && t.consumers == s.consumers[c := Consumer([], Waiting)]
  }

  /** Given a queue, `c` works it off and leaves the rest alone. */
  lemma GivenLeaves(s: State, group: Group, c: nat, queue: seq<nat>)
    requires group.created == s.group.created && group.start == s.group.start
    requires forall i :: 0 <= i < |queue| ==> queue[i] < |s.stream|
    ensures var given := s.(group := group, consumers := s.consumers[c := Consumer(queue, Waiting)]);
      Ready(given, c) && Leaves(s, AfterQueue(given, c), c) && AfterQueue(given, c).group.delivered == group.delivered
  {
    var given := s.(group := group, consumers := s.consumers[c := Consumer(queue, Waiting)]);
    QueueFrame(given, c);
    assert given.consumers[c := Consumer([], Waiting)] == s.consumers[c := Consumer([], Waiting)];
  }

  lemma {:induction false} QueueSteps(s: State, c: nat) returns (steps: seq<Step>)
    requires Ready(s, c)
    ensures Leads(s, steps, AfterQueue(s, c)) && AllWorking(steps, c)
    decreases |s.consumers[c].queue|
  {
    if s.consumers[c].queue == [] {
      steps := [];
    } else {
      var first := MessageSteps(s, c);
      var rest := QueueSteps(AfterMessage(s, c), c);
      Join(s, first, AfterMessage(s, c), rest, AfterQueue(s, c));
      steps := first + rest;
    }
  }

  lemma OldestConsumable(s: State, c: nat)
    requires Inv(s) && HoldsOldest(s, c) && s.consumers[c].queue != [] && s.group.start == 0 && s.trimmed == 0
    ensures Handling(s, c)
    ensures var e := s.stream[s.consumers[c].queue[0]]; e.sequence <= LastSequence(s.db, e.execution) + 1
  {
    OldestFirst(s, c);
    OldestHasNoGap(s.stream, s.group, s.db, s.history, s.consumers[c].queue[0]);
  }

  lemma InTail(queue: seq<nat>, m: nat)
    requires m in queue && m != queue[0]
    ensures m in queue[1..]
  {
    var k :| 0 <= k < |queue| && queue[k] == m;
    assert queue[1..][k - 1] == m;
  }

  lemma QueueShrinks(s: State, c: nat)
    requires HoldsOldest(s, c) && Handling(s, c)
    ensures HoldsOldest(Consumed(s, c), c)
  {
    var t := Consumed(s, c);
    var queue, rest := s.consumers[c].queue, t.consumers[c].queue;
    forall m, i | m in t.group.pending && m !in rest && 0 <= i < |rest| ensures rest[i] < m {
      if m in queue {
        InTail(queue, m);
      }
      assert rest[i] == queue[i + 1];
    }
  }

  lemma ToSetHead(queue: seq<nat>)
    requires queue != []
    ensures ToSet(queue) == {queue[0]} + ToSet(queue[1..])
  {
    assert queue == [queue[0]] + queue[1..];
  }

  lemma MessageKeeps(s: State, c: nat)
    requires Inv(s) && Handling(s, c) && s.consumers[c].phase.Waiting?
    ensures Inv(AfterMessage(s, c))
  {
    var steps := MessageSteps(s, c);
    RunKeeps(s, steps, AfterMessage(s, c));
  }

  /** A pass over the oldest pending messages acknowledges every one of them. */
  lemma {:induction false} ReclaimPassAcksAll(s: State, c: nat)
    requires Inv(s) && HoldsOldest(s, c) && s.group.start == 0 && s.trimmed == 0
    ensures Ready(s, c) && AfterQueue(s, c).group.pending == s.group.pending - ToSet(s.consumers[c].queue)
    decreases |s.consumers[c].queue|
  {
    var queue := s.consumers[c].queue;
    HeldReady(s, c);
    if queue == [] {
      assert s.group.pending - ToSet(queue) == s.group.pending;
    } else {
      var t := Consumed(s, c);
      FirstConsumed(s, c);
      ReclaimPassAcksAll(t, c);
      RestOf(s.group.pending, queue);
    }
  }

  lemma HeldReady(s: State, c: nat)
    requires Inv(s) && HoldsOldest(s, c)
    ensures Ready(s, c)
  {
    forall i | 0 <= i < |s.consumers[c].queue| ensures s.consumers[c].queue[i] < |s.stream| {
      assert s.consumers[c].queue[i] in s.group.pending;
    }
  }

  lemma FirstConsumed(s: State, c: nat)
    requires Inv(s) && HoldsOldest(s, c) && s.consumers[c].queue != [] && s.group.start == 0 && s.trimmed == 0
    ensures Handling(s, c) && AfterMessage(s, c) == Consumed(s, c)
    ensures Inv(Consumed(s, c)) && HoldsOldest(Consumed(s, c), c)
  {
    OldestConsumable(s, c);
    MessageKeeps(s, c);
    QueueShrinks(s, c);
  }

  lemma RestOf(pending: set<nat>, queue: seq<nat>)
    requires queue != []
    ensures pending - {queue[0]} - ToSet(queue[1..]) == pending - ToSet(queue)
  {
    ToSetHead(queue);
  }

  /** The members between `lo` and `hi`, ascending: XPENDING's order. */
  function Ascending(members: set<nat>, lo: nat, hi: nat): (r: seq<nat>)
    requires lo <= hi
    ensures forall i :: 0 <= i < |r| ==> r[i] in members && lo <= r[i] < hi
    ensures forall i, j :: 0 <= i < j < |r| ==> r[i] < r[j]
    ensures forall m :: m in members && lo <= m < hi ==> m in r
    decreases hi - lo
  {
    if lo == hi then []
    else if lo in members then [lo] + Ascending(members, lo + 1, hi)
    else Ascending(members, lo + 1, hi)
  }
}
