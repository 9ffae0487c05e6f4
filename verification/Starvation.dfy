/** Messages that do not parse are never acknowledged, and neither are messages behind a gap nothing fills.
    Once the `BATCH` oldest pending messages are such, reclaiming is over for good: nothing any consumer of
    the group does lets a message behind them be acknowledged. */
module Starvation {
  import opened Json
  import opened Events
  import opened Protocol
  import opened Recovery
  import opened AgentConsumer
  import opened CatchUp
  import opened Runs

  /** What happens to a group: some consumer reclaims or reads and deals with the first `n` messages it
      got before it stops, or a message is added. */
  datatype Move = Reclaim(idle: set<nat>, n: nat) | ReadNew(n: nat) | Arrive(message: Message)

  function Take(ids: seq<nat>, n: nat): seq<nat> {
    if n <= |ids| then ids[..n] else ids
  }

  function Moved(v: View, move: Move): View {
    match move
    case Reclaim(idle, n) => ConsumeEach(v, Take(Claimed(v, idle), n))
    case ReadNew(n) => ConsumeEach(Fetched(v), Take(Range(v.delivered, Fetched(v).delivered), n))
    case Arrive(message) => v.(stream := v.stream + [message])
  }

  function MovedBy(v: View, moves: seq<Move>): View
    decreases |moves|
  {
    if |moves| == 0 then v else MovedBy(Moved(v, moves[0]), moves[1..])
  }

  /** Pending messages were delivered, and delivered ones are on the Stream. */
  predicate OnStream(v: View) {
    v.delivered <= |v.stream| && forall id :: id in v.pending ==> id < v.delivered
  }

  /** The message does not fill a gap of the Executions in `cut`. */
  predicate Harmless(db: AgentDb, cut: set<Uuid>, message: Message) {
    message.Valid? && message.event.execution in cut ==>
      message.event.sequence > LastSequence(db, message.event.execution) + 1
  }

  /** The Executions in `cut` are behind a gap, and nothing that is or will be delivered fills it. */
  predicate CutOff(v: View, cut: set<Uuid>) {
    forall id :: 0 <= id < |v.stream| && (id in v.pending || id >= v.delivered) ==> Harmless(v.db, cut, v.stream[id])
  }

  /** The pass over the oldest pending messages finds `BATCH` of them: each does not parse or is behind a
      gap that stays. */
  predicate Starved(v: View, cut: set<Uuid>) {
    && OnStream(v) && CutOff(v, cut) && |Oldest(v)| == BATCH
    && forall i :: 0 <= i < BATCH ==>
         v.stream[Oldest(v)[i]].Invalid? || v.stream[Oldest(v)[i]].event.execution in cut
  }

  /** Nothing that arrives fills a gap. */
  predicate Spared(db: AgentDb, cut: set<Uuid>, moves: seq<Move>) {
    forall i :: 0 <= i < |moves| && moves[i].Arrive? ==> Harmless(db, cut, moves[i].message)
  }

  // -------------------------------------------------------------------- order

  /** Members from `d` on come after the others. */
  lemma {:induction false} AscendingFirst(members: set<nat>, more: set<nat>, d: nat, lo: nat, hi: nat)
    requires lo <= hi && members <= more && (forall m :: m in members ==> m < d)
    requires forall m :: m in more && m < d ==> m in members
    ensures Ascending(members, lo, hi) <= Ascending(more, lo, hi)
    decreases hi - lo
  {
    if lo >= d {
      assert Ascending(members, lo, hi) == [] by {
        NoneFrom(members, lo, hi);
      }
    } else if lo < hi {
      AscendingFirst(members, more, d, lo + 1, hi);
    }
  }

  lemma {:induction false} NoneFrom(members: set<nat>, lo: nat, hi: nat)
    requires lo <= hi && forall m :: m in members ==> m < lo
    ensures Ascending(members, lo, hi) == []
    decreases hi - lo
  {
    if lo < hi {
      NoneFrom(members, lo + 1, hi);
    }
  }

  /** A longer Stream has no further pending messages by itself. */
  lemma {:induction false} AscendingBeyond(members: set<nat>, lo: nat, hi: nat, end: nat)
    requires lo <= hi <= end && forall m :: m in members ==> m < hi
    ensures Ascending(members, lo, end) == Ascending(members, lo, hi)
    decreases hi - lo
  {
    if lo == hi {
      NoneFrom(members, lo, end);
    } else {
      AscendingBeyond(members, lo + 1, hi, end);
    }
  }

  lemma OldestKept(v: View, w: View)
    requires OnStream(v) && |Oldest(v)| == BATCH && |v.stream| <= |w.stream| && v.pending <= w.pending
    requires forall id :: id in w.pending && id < v.delivered ==> id in v.pending
    ensures Oldest(w) == Oldest(v)
  {
    AscendingBeyond(v.pending, 0, |v.stream|, |w.stream|);
    AscendingFirst(v.pending, w.pending, v.delivered, 0, |w.stream|);
    SameStart(Ascending(v.pending, 0, |w.stream|), Ascending(w.pending, 0, |w.stream|));
  }

  lemma SameStart(some: seq<nat>, all: seq<nat>)
    requires some <= all && |some| >= BATCH
    ensures (if |some| <= BATCH then some else some[..BATCH]) == if |all| <= BATCH then all else all[..BATCH]
  {
    assert |some| == BATCH ==> all[..BATCH] == some;
  }

  // -------------------------------------------------------------------- moves

  lemma ReclaimStuck(v: View, cut: set<Uuid>, idle: set<nat>, n: nat)
    requires Starved(v, cut)
    ensures Moved(v, Reclaim(idle, n)) == v
  {
    var ids := Take(Claimed(v, idle), n);
    forall i | 0 <= i < |ids| ensures !Ackable(v, ids[i]) {
      assert ids[i] == Claimed(v, idle)[i] && ids[i] in Oldest(v);
      OldestPending(v);
      assert Harmless(v.db, cut, v.stream[ids[i]]);
    }
    NothingAckable(v, ids);
  }

  lemma OldestPending(v: View)
    ensures forall id :: id in Oldest(v) ==> id in v.pending && id < |v.stream|
  {
  }

  /** The last sequences of the Executions in `cut` are the same. */
  predicate SameLast(db: AgentDb, after: AgentDb, cut: set<Uuid>) {
    forall x :: x in cut ==> LastSequence(after, x) == LastSequence(db, x)
  }

  lemma ConsumeSpares(v: View, cut: set<Uuid>, id: nat)
    requires id < |v.stream| ==> Harmless(v.db, cut, v.stream[id])
    ensures SameLast(v.db, Consume(v, id).db, cut)
  {
  }

  lemma {:induction false} EachSpares(v: View, cut: set<Uuid>, ids: seq<nat>)
    requires forall i :: 0 <= i < |ids| && ids[i] < |v.stream| ==> Harmless(v.db, cut, v.stream[ids[i]])
    ensures SameLast(v.db, ConsumeEach(v, ids).db, cut)
    decreases |ids|
  {
    if |ids| > 0 {
      ConsumeSpares(v, cut, ids[0]);
      var w := Consume(v, ids[0]);
      forall i | 0 <= i < |ids[1..]| && ids[1..][i] < |w.stream| ensures Harmless(w.db, cut, w.stream[ids[1..][i]]) {
        assert ids[1..][i] == ids[i + 1];
      }
      EachSpares(w, cut, ids[1..]);
    }
  }

  lemma {:induction false} EachLeaves(v: View, ids: seq<nat>)
    ensures var w := ConsumeEach(v, ids);
      && w.stream == v.stream && w.delivered == v.delivered && w.pending <= v.pending
      && forall id :: id in v.pending && id !in ids ==> id in w.pending
    decreases |ids|
  {
    if |ids| > 0 {
      EachLeaves(Consume(v, ids[0]), ids[1..]);
    }
  }

  lemma ReadKeepsOld(v: View, n: nat)
    requires OnStream(v)
    ensures var w := Moved(v, ReadNew(n));
      && OnStream(w) && w.stream == v.stream && v.pending <= w.pending
      && forall id :: id in w.pending && id < v.delivered ==> id in v.pending
  {
    var range := Range(v.delivered, Fetched(v).delivered);
    EachLeaves(Fetched(v), Take(range, n));
    assert forall i :: 0 <= i < |range| ==> range[i] >= v.delivered;
    assert forall id :: id in Take(range, n) ==> id in range;
  }

  lemma ReadSpares(v: View, cut: set<Uuid>, n: nat)
    requires OnStream(v) && CutOff(v, cut)
    ensures var w := Moved(v, ReadNew(n)); SameLast(v.db, w.db, cut) && CutOff(w, cut)
  {
    var range, w := Range(v.delivered, Fetched(v).delivered), Moved(v, ReadNew(n));
    EachSpares(Fetched(v), cut, Take(range, n));
    EachLeaves(Fetched(v), Take(range, n));
    forall id | 0 <= id < |w.stream| && (id in w.pending || id >= w.delivered)
      ensures Harmless(w.db, cut, w.stream[id])
    {
      assert id in v.pending || id >= v.delivered;
      assert Harmless(v.db, cut, v.stream[id]);
    }
  }

  lemma MoveStarves(v: View, cut: set<Uuid>, move: Move)
    requires Starved(v, cut) && (move.Arrive? ==> Harmless(v.db, cut, move.message))
    ensures Starved(Moved(v, move), cut) && Oldest(Moved(v, move)) == Oldest(v) && v.pending <= Moved(v, move).pending
    ensures SameLast(v.db, Moved(v, move).db, cut)
  {
    var w := Moved(v, move);
    OldestPending(v);
    match move {
      case Reclaim(idle, n) => ReclaimStuck(v, cut, idle, n);
      case ReadNew(n) =>
        ReadKeepsOld(v, n);
        ReadSpares(v, cut, n);
        OldestKept(v, w);
      case Arrive(message) => OldestKept(v, w);
    }
  }

  lemma SparedOn(db: AgentDb, after: AgentDb, cut: set<Uuid>, moves: seq<Move>)
    requires |moves| > 0 && Spared(db, cut, moves) && SameLast(db, after, cut)
    ensures Spared(after, cut, moves[1..])
  {
  }

  /** Whatever consumers do, and whatever arrives that does not fill the gap, every message that is pending
      now stays pending. */
  lemma {:induction false} StarvedForGood(v: View, cut: set<Uuid>, moves: seq<Move>)
    requires Starved(v, cut) && Spared(v.db, cut, moves)
    ensures Starved(MovedBy(v, moves), cut) && Oldest(MovedBy(v, moves)) == Oldest(v)
    ensures v.pending <= MovedBy(v, moves).pending
    decreases |moves|
  {
    if |moves| > 0 {
      MoveStarves(v, cut, moves[0]);
      SparedOn(v.db, Moved(v, moves[0]).db, cut, moves);
      StarvedForGood(Moved(v, moves[0]), cut, moves[1..]);
    }
  }

  // -------------------------------------------------------------- how it comes

  /** `BATCH` messages that do not parse, then an event; nothing delivered yet. */
  function Foreign(e: Event): View {
    View(seq(BATCH, i => Invalid) + [Valid(e)], 0, {}, EMPTY_DB)
  }

  /** A consumer reads the first batch and can do nothing with it; it reads on and stops before it deals
      with the event. */
  const MISHAP := [ReadNew(BATCH), ReadNew(0)]

  lemma FirstRead(e: Event)
    ensures Moved(Foreign(e), ReadNew(BATCH)) == Foreign(e).(delivered := BATCH, pending := ToSet(Range(0, BATCH)))
  {
    var v := Foreign(e);
    var fetched := Fetched(v);
    assert fetched == v.(delivered := BATCH, pending := ToSet(Range(0, BATCH)));
    var ids := Take(Range(0, BATCH), BATCH);
    assert ids == Range(0, BATCH);
    NothingAckable(fetched, ids);
  }

  lemma SecondRead(e: Event)
    ensures MovedBy(Foreign(e), MISHAP) == Foreign(e).(delivered := BATCH + 1, pending := ToSet(Range(0, BATCH + 1)))
  {
    FirstRead(e);
    var v := Moved(Foreign(e), ReadNew(BATCH));
    assert MISHAP[1..] == [ReadNew(0)] && [ReadNew(0)][1..] == [];
    assert Fetched(v).delivered == BATCH + 1;
    assert Range(0, BATCH + 1) == Range(0, BATCH) + Range(BATCH, BATCH + 1);
    assert Fetched(v).pending == ToSet(Range(0, BATCH + 1));
    assert Take(Range(BATCH, BATCH + 1), 0) == [];
  }

  lemma {:induction false} AscendingFull(members: set<nat>, lo: nat, hi: nat)
    requires lo <= hi && forall m :: lo <= m < hi ==> m in members
    ensures Ascending(members, lo, hi) == Range(lo, hi)
    decreases hi - lo
  {
    if lo < hi {
      AscendingFull(members, lo + 1, hi);
      assert Range(lo, hi) == [lo] + Range(lo + 1, hi);
    }
  }

  /** Starvation happens: after one mishap the first event of an Execution is pending and could be applied,
      but it is behind `BATCH` messages that do not parse, and no further moves bring it out. */
  lemma StarvationHappens(e: Event, moves: seq<Move>)
    requires e.sequence == 1
    ensures var v := MovedBy(Foreign(e), MISHAP);
      && Starved(v, {}) && BATCH in v.pending && Ackable(v, BATCH)
      && BATCH in MovedBy(v, moves).pending
  {
    SecondRead(e);
    var v := MovedBy(Foreign(e), MISHAP);
    var range := Range(0, BATCH + 1);
    forall m: nat | m < BATCH + 1 ensures m in v.pending {
      assert range[m] == m;
    }
    AscendingFull(v.pending, 0, BATCH + 1);
    assert Oldest(v) == range[..BATCH];
    StarvedForGood(v, {}, moves);
  }

  // ----------------------------------------------------- inside the step system

  /** An Execution with one event more than a pass looks at, and the first event of another one. */
  predicate Cast(own: seq<Event>, other: Event) {
    && |own| == BATCH + 1 && other.sequence == 1 && WellFormed(other.payload) && other.execution != own[0].execution
    && (forall i :: 0 <= i < |own| ==>
          && own[i].execution == own[0].execution && own[i].sequence == i + 1 && WellFormed(own[i].payload)
          && own[i].id != other.id)
    && (forall i, j :: 0 <= i < j < |own| ==> own[i].id != own[j].id)
  }

  /** All of it is published, and the group starts behind the first event. */
  predicate StartsLate(s: State, own: seq<Event>, other: Event) {
    && s.stream == own + [other] && s.group == Group(true, 1, 1, {}, {}) && s.trimmed == 0
    && s.consumers == map[] && s.db == EMPTY_DB
  }

  lemma LateStart(e: Event) returns (s: State)
    requires e.sequence == 1 && WellFormed(e.payload)
    ensures Reachable(s) && Idle(s) && s.issued == map[e.id := KeyOf(e)] && Counted(map[], e, s.counters)
    ensures s.stream == [e] && s.group == Group(true, 1, 1, {}, {}) && s.trimmed == 0
    ensures s.consumers == map[] && s.db == EMPTY_DB
  {
    InitReachable();
    var sent := ReachesPublished(INIT, e);
    s := GroupCreated(sent, false);
    GroupStep(sent, false);
    ReachesOn(sent, [CreateGroup(false)], s);
  }

  /** A group created with `$` after the first event was published. */
  lemma LateGroup(own: seq<Event>, other: Event) returns (s: State)
    requires Cast(own, other)
    ensures Reachable(s) && StartsLate(s, own, other)
  {
    var rest := own[1..];
    var one := LateStart(own[0]);
    var many := PublishEach(one, own[0].execution, rest, BATCH);
    assert rest[..BATCH] == rest && [own[0]] + rest == own;
    s := ReachesPublished(many, other);
  }

  /** What the group sees at the start. */
  predicate GapView(v: View, own: seq<Event>, other: Event) {
    && |v.stream| == BATCH + 2 == |own| + 1 && (forall i :: 0 <= i <= BATCH ==> v.stream[i] == Valid(own[i]))
    && v.stream[BATCH + 1] == Valid(other) && v.db == EMPTY_DB
  }

  lemma FirstTurn(v: View, own: seq<Event>, other: Event)
    requires Cast(own, other) && GapView(v, own, other) && v.delivered == 1 && v.pending == {}
    ensures MainTurn(v, {}) == v.(delivered := BATCH + 1, pending := ToSet(Range(1, BATCH + 1)))
  {
    assert Claimed(v, {}) == [];
    var fetched := Fetched(v);
    var ids := Range(1, BATCH + 1);
    assert fetched == v.(delivered := BATCH + 1, pending := ToSet(ids));
    forall i | 0 <= i < |ids| ensures !Ackable(fetched, ids[i]) {
      assert v.stream[ids[i]] == Valid(own[ids[i]]);
    }
    NothingAckable(fetched, ids);
  }

  lemma SecondFetch(v: View, own: seq<Event>, other: Event)
    requires Cast(own, other) && GapView(v, own, other)
    requires v.delivered == BATCH + 1 && v.pending == ToSet(Range(1, BATCH + 1))
    ensures Fetched(v) == v.(delivered := BATCH + 2, pending := ToSet(Range(1, BATCH + 2)))
  {
    assert Range(1, BATCH + 2) == Range(1, BATCH + 1) + Range(BATCH + 1, BATCH + 2);
    assert ToSet(Range(1, BATCH + 2)) == ToSet(Range(1, BATCH + 1)) + ToSet(Range(BATCH + 1, BATCH + 2));
  }

  /** The messages behind the gap are the oldest, and they are enough. */
  lemma GapStarves(v: View, own: seq<Event>, other: Event)
    requires Cast(own, other) && GapView(v, own, other)
    requires v.delivered == BATCH + 2 && v.pending == ToSet(Range(1, BATCH + 2))
    ensures Starved(v, {own[0].execution}) && BATCH + 1 in v.pending && Ackable(v, BATCH + 1)
  {
    var range := Range(1, BATCH + 2);
    forall m: nat ensures m in v.pending <==> 1 <= m < BATCH + 2 {
      if 1 <= m < BATCH + 2 {
        assert range[m - 1] == m;
      }
    }
    AscendingFull(v.pending, 1, BATCH + 2);
    assert Ascending(v.pending, 0, BATCH + 2) == range;
    assert Oldest(v) == range[..BATCH];
    forall i | 0 <= i < BATCH ensures v.stream[Oldest(v)[i]] == Valid(own[i + 1]) {
    }
    forall id | 0 <= id < |v.stream| && (id in v.pending || id >= v.delivered)
      ensures Harmless(v.db, {own[0].execution}, v.stream[id])
    {
    }
  }

  lemma AfterFirstTurn(s: State, own: seq<Event>, other: Event) returns (t: State)
    requires Cast(own, other) && Reachable(s) && StartsLate(s, own, other)
    ensures Reachable(t) && t.trimmed == 0 && CanFetch(t, 0) && ViewOf(t).stream == ViewOf(s).stream
    ensures ViewOf(t) == ViewOf(s).(delivered := BATCH + 1, pending := ToSet(Range(1, BATCH + 1)))
  {
    t := AfterTurn(s, 0, {});
    var first, second := TurnIsSteps(s, 0, {});
    ReachesOn(s, [Claim(0, Claimed(ViewOf(s), {}))] + first + [Deliver(0, BATCH)] + second, t);
    ViewAfterTurn(s, 0, {});
    TurnLeaves(s, 0, {});
    FirstTurn(ViewOf(s), own, other);
  }

  lemma ReadAndStop(s: State) returns (t: State)
    requires Reachable(s) && s.trimmed == 0 && CanFetch(s, 0)
    ensures Reachable(t) && ViewOf(t) == Fetched(ViewOf(s))
  {
    var given := Delivered(s, 0, BATCH);
    DeliverStep(s, 0, BATCH);
    ReachesOn(s, [Deliver(0, BATCH)], given);
    FetchedIsDelivered(s, 0);
    t := given.(consumers := given.consumers - {0});
    One(given, CrashConsumer(0));
    ReachesOn(given, [CrashConsumer(0)], t);
    assert ViewOf(t).stream == ViewOf(given).stream;
  }

  /** It happens with valid messages, too: a group that starts behind the first event of an Execution, with
      `$`, fills up with the events after it. A consumer that stops right after a read leaves the first
      event of another Execution pending, and no further moves bring it out. */
  lemma LateGroupStarves(own: seq<Event>, other: Event, moves: seq<Move>) returns (t: State)
    requires Cast(own, other) && Spared(EMPTY_DB, {own[0].execution}, moves)
    ensures Reachable(t)
    ensures Starved(ViewOf(t), {own[0].execution}) && BATCH + 1 in t.group.pending && Ackable(ViewOf(t), BATCH + 1)
    ensures BATCH + 1 in MovedBy(ViewOf(t), moves).pending
  {
    var s := LateGroup(own, other);
    var turned := AfterFirstTurn(s, own, other);
    t := ReadAndStop(turned);
    SecondFetch(ViewOf(turned), own, other);
    GapStarves(ViewOf(t), own, other);
    StarvedForGood(ViewOf(t), {own[0].execution}, moves);
  }
}
