/** The Agent's main loop: `_apply_once`, `_consume_message`, the reclaim pass over pending messages
    and the read of new ones, as one object over its store and its consumer group. */
module AgentConsumer {
  import opened Events
  import opened Protocol
  import opened Invariant
  import opened Recovery

  /** A Stream entry as the consumer sees it: fields that parse to an envelope, or not. */
  datatype Message = Valid(event: Event) | Invalid

  /** `count` of XPENDING and of XREADGROUP. */
  const BATCH := 20

  datatype ApplyResult = AppliedNow | Skipped | SequenceGap

  /** The consumer group and the store, as a value. */
  datatype View = View(stream: seq<Message>, delivered: nat, pending: set<nat>, db: AgentDb)

  // ------------------------------------------------------------- specification

  /** The message parses and is not behind a gap, so it will be acknowledged. */
  predicate Ackable(v: View, id: nat) {
    id < |v.stream| && v.stream[id].Valid?
    && v.stream[id].event.sequence <= LastSequence(v.db, v.stream[id].event.execution) + 1
  }

  /** `_apply_once`, alone with its store. */
  function Applying(db: AgentDb, e: Event): AgentDb {
    if Judge(e.sequence, LastSequence(db, e.execution)) == Next then Write(db, e) else db
  }

  /** `_consume_message`. */
  function Consume(v: View, id: nat): View {
    if Ackable(v, id) then v.(pending := v.pending - {id}, db := Applying(v.db, v.stream[id].event)) else v
  }

  function ConsumeEach(v: View, ids: seq<nat>): View
    decreases |ids|
  {
    if |ids| == 0 then v else ConsumeEach(Consume(v, ids[0]), ids[1..])
  }

  /** The message is acknowledged and ends the loop. */
  predicate Stops(v: View, id: nat, stopAfterTerminal: bool) {
    stopAfterTerminal && Ackable(v, id) && v.stream[id].event.eventType == "execution.completed"
  }

  /** One message after the other, up to the first that ends the loop; and whether one did. */
  function ConsumeUntil(v: View, ids: seq<nat>, stopAfterTerminal: bool): (View, bool)
    decreases |ids|
  {
    if |ids| == 0 then (v, false)
    else if Stops(v, ids[0], stopAfterTerminal) then (Consume(v, ids[0]), true)
    else ConsumeUntil(Consume(v, ids[0]), ids[1..], stopAfterTerminal)
  }

  lemma {:induction false} NothingStops(v: View, ids: seq<nat>)
    ensures ConsumeUntil(v, ids, false) == (ConsumeEach(v, ids), false)
    decreases |ids|
  {
    if |ids| > 0 {
      NothingStops(Consume(v, ids[0]), ids[1..]);
    }
  }

  /** XPENDING: the oldest entries, at most `BATCH` of them. */
  function Oldest(v: View): seq<nat> {
    var all := Ascending(v.pending, 0, |v.stream|);
    if |all| <= BATCH then all else all[..BATCH]
  }

  /** The idle ones among the first `n`. */
  function OnlyIdle(ids: seq<nat>, n: nat, idle: set<nat>): (r: seq<nat>)
    requires n <= |ids|
    ensures forall i :: 0 <= i < |r| ==> r[i] in idle && r[i] in ids
    ensures forall i :: 0 <= i < n && ids[i] in idle ==> ids[i] in r
  {
    if n == 0 then []
    else
      var before := OnlyIdle(ids, n - 1, idle);
      if ids[n - 1] in idle then before + [ids[n - 1]] else before
  }

  function Claimed(v: View, idle: set<nat>): seq<nat> {
    OnlyIdle(Oldest(v), |Oldest(v)|, idle)
  }

  /** XREADGROUP: the next messages, now pending. */
  function Fetched(v: View): View {
    var hi := if v.delivered + BATCH <= |v.stream| then v.delivered + BATCH else Max(v.delivered, |v.stream|);
    v.(delivered := hi, pending := v.pending + ToSet(Range(v.delivered, hi)))
  }

  /** One turn of `main` when it need not stop: reclaim what is idle, then read what is new. */
  function MainTurn(v: View, idle: set<nat>): View {
    var reclaimed := ConsumeEach(v, Claimed(v, idle));
    ConsumeEach(Fetched(reclaimed), Range(reclaimed.delivered, Fetched(reclaimed).delivered))
  }

  /** One turn of `main`, and whether it ends the loop: no message is read after one that does. */
  function TurnUntil(v: View, idle: set<nat>, stopAfterTerminal: bool): (View, bool) {
    var (reclaimed, stop) := ConsumeUntil(v, Claimed(v, idle), stopAfterTerminal);
    if stop then (reclaimed, true)
    else
      var fetched := Fetched(reclaimed);
      ConsumeUntil(fetched, Range(reclaimed.delivered, fetched.delivered), stopAfterTerminal)
  }

  // -------------------------------------------------------- what a pass leaves

  /** The event of the message is in the store: its sequence is applied, or its id is recorded. */
  predicate Handled(v: View, id: nat) {
    id < |v.stream| && v.stream[id].Valid?
    && (Applied(v.db, v.stream[id].event) || Recorded(v.db, v.stream[id].event.id))
  }

  /** Stores only grow. */
  ghost predicate Grows(db: AgentDb, after: AgentDb) {
    && (forall x :: LastSequence(db, x) <= LastSequence(after, x))
    && (forall id :: Recorded(db, id) ==> Recorded(after, id))
  }

  lemma ApplyingGrows(db: AgentDb, e: Event)
    ensures Grows(db, Applying(db, e))
    ensures e.sequence <= LastSequence(db, e.execution) + 1 ==>
      Applied(Applying(db, e), e) || Recorded(Applying(db, e), e.id)
  {
    var after := Applying(db, e);
    forall id | Recorded(db, id) ensures Recorded(after, id) {
      var i :| 0 <= i < |db.consumed| && db.consumed[i].eventId == id;
      assert after.consumed[i] == db.consumed[i];
    }
  }

  lemma ConsumeLeaves(v: View, id: nat)
    ensures var w := Consume(v, id);
      && w.stream == v.stream && w.delivered == v.delivered && Grows(v.db, w.db)
      && w.pending == (if Ackable(v, id) then v.pending - {id} else v.pending)
      && (Ackable(v, id) ==> Handled(w, id))
  {
    if Ackable(v, id) {
      ApplyingGrows(v.db, v.stream[id].event);
    }
  }

  /** What a list of messages, dealt with up to the first that ends the loop, leaves behind: messages leave
      the pending set only when they are handled, and whatever could be acknowledged at the start is. */
  lemma {:induction false} PassLeaves(v: View, ids: seq<nat>, stopAfterTerminal: bool)
    ensures var (w, stop) := ConsumeUntil(v, ids, stopAfterTerminal);
      && w.stream == v.stream && w.delivered == v.delivered && w.pending <= v.pending && Grows(v.db, w.db)
      && (forall id :: id in v.pending && id !in w.pending ==> id in ids && Handled(w, id))
      && (!stop ==> forall id :: id in ids && Ackable(v, id) ==> id !in w.pending)
    decreases |ids|
  {
    if |ids| > 0 {
      ConsumeLeaves(v, ids[0]);
      PassLeaves(Consume(v, ids[0]), ids[1..], stopAfterTerminal);
      assert forall id :: id in ids ==> id == ids[0] || id in ids[1..];
    }
  }

  // ------------------------------------------------------------------ the loop

  class Consumer {
    const stopAfterTerminal: bool
    var stream: seq<Message>
    var delivered: nat
    var pending: set<nat>
    var consumed: seq<ConsumedRow>
    var states: map<Uuid, StateRow>

    function Now(): View
      reads this
    {
      View(stream, delivered, pending, AgentDb(consumed, states))
    }

    constructor (stream: seq<Message>, stopAfterTerminal: bool)
      ensures Now() == View(stream, 0, {}, EMPTY_DB) && this.stopAfterTerminal == stopAfterTerminal
    {
      this.stopAfterTerminal := stopAfterTerminal;
      this.stream, this.delivered, this.pending, this.consumed, this.states := stream, 0, {}, [], map[];
    }

    /** The primary-key lookup behind the INSERT. */
    method FindId(id: Uuid) returns (found: bool)
      ensures found <==> Recorded(Now().db, id)
    {
      found := false;
      for i := 0 to |consumed|
        invariant found <==> exists j :: 0 <= j < i && consumed[j].eventId == id
      {
        if consumed[i].eventId == id {
          found := true;
        }
      }
    }

    method ApplyOnce(e: Event) returns (r: ApplyResult)
      modifies this`consumed, this`states
      ensures Now() == old(Now()).(db := Applying(old(Now().db), e))
      ensures r.SequenceGap? <==> e.sequence > LastSequence(old(Now().db), e.execution) + 1
      ensures r.AppliedNow? <==> Now().db != old(Now().db)
    {
      var last := if e.execution in states then states[e.execution].lastSequence else 0;
      if e.sequence <= last {
        return Skipped;
      }
      if e.sequence != last + 1 {
        return SequenceGap;
      }
      var collides := FindId(e.id);
      if collides {
        return Skipped;
      }
      assert old(Now().db) == AgentDb(consumed, states);
      consumed := consumed + [RowOf(e)];
      states := states[e.execution := StateOf(e)];
      assert Now().db == Record(old(Now().db), e);
      assert |consumed| != |old(consumed)|;
      r := AppliedNow;
    }

    /** True means the loop ends: a terminal event was acknowledged and the caller asked to stop there. */
    method ConsumeMessage(id: nat) returns (stop: bool)
      modifies this`pending, this`consumed, this`states
      ensures Now() == Consume(old(Now()), id)
      ensures stop <==> Stops(old(Now()), id, stopAfterTerminal)
    {
      stop := false;
      if id >= |stream| || stream[id].Invalid? {
        return;
      }
      var e := stream[id].event;
      var r := ApplyOnce(e);
      if r.SequenceGap? {
        assert !Ackable(old(Now()), id);
        return;
      }
      pending := pending - {id};
      stop := stopAfterTerminal && e.eventType == "execution.completed";
    }

    /** The `for` loops of `main`. */
    method ConsumeAll(ids: seq<nat>) returns (stop: bool)
      modifies this`pending, this`consumed, this`states
      ensures (Now(), stop) == ConsumeUntil(old(Now()), ids, stopAfterTerminal)
    {
      stop := false;
      var done := 0;
      assert ids[0..] == ids;
      while done < |ids| && !stop
        invariant done <= |ids| && stream == old(stream) && delivered == old(delivered)
        invariant ConsumeUntil(old(Now()), ids, stopAfterTerminal)
                  == if stop then (Now(), true) else ConsumeUntil(Now(), ids[done..], stopAfterTerminal)
      {
        assert ids[done..][1..] == ids[done + 1..];
        stop := ConsumeMessage(ids[done]);
        done := done + 1;
      }
    }

    /** XPENDING: the oldest pending messages. */
    method FindOldest() returns (ids: seq<nat>)
      ensures ids == Oldest(Now())
    {
      ids := [];
      var i := 0;
      ghost var all := Ascending(pending, 0, |stream|);
      assert all == ids + all;
      while i < |stream| && |ids| < BATCH
        invariant i <= |stream| && |ids| <= BATCH && all == ids + Ascending(pending, i, |stream|)
      {
        AscendingStep(ids, pending, i, |stream|);
        if i in pending {
          ids := ids + [i];
        }
        i := i + 1;
      }
    }

    /** The ones among them delivered long enough ago. */
    method FindIdle(idle: set<nat>) returns (ids: seq<nat>)
      ensures ids == Claimed(Now(), idle)
    {
      var oldest := FindOldest();
      ids := [];
      for i := 0 to |oldest|
        invariant ids == OnlyIdle(oldest, i, idle)
      {
        if oldest[i] in idle {
          ids := ids + [oldest[i]];
        }
      }
    }

    /** The reclaim half of a turn of `main`; `idle` are the messages delivered long enough ago. */
    method ReclaimPass(idle: set<nat>) returns (stop: bool)
      modifies this`pending, this`consumed, this`states
      ensures (Now(), stop) == ConsumeUntil(old(Now()), Claimed(old(Now()), idle), stopAfterTerminal)
      ensures forall id :: id in old(pending) && id !in pending ==>
        id in Oldest(old(Now())) && id in idle && Handled(Now(), id)
      ensures !stop ==> forall id ::
        id in Oldest(old(Now())) && id in idle && Ackable(old(Now()), id) ==> id !in pending
    {
      var ids := FindIdle(idle);
      PassLeaves(Now(), ids, stopAfterTerminal);
      stop := ConsumeAll(ids);
    }

    /** XREADGROUP: the next messages become pending. */
    method Fetch() returns (ids: seq<nat>)
      modifies this`delivered, this`pending
      ensures Now() == Fetched(old(Now())) && ids == Range(old(delivered), delivered)
    {
      ids := [];
      while |ids| < BATCH && delivered < |stream|
        invariant delivered == old(delivered) + |ids| && |ids| <= BATCH && (|ids| > 0 ==> delivered <= |stream|)
        invariant ids == Range(old(delivered), delivered) && pending == old(pending) + ToSet(ids)
        invariant stream == old(stream) && consumed == old(consumed) && states == old(states)
      {
        ids := ids + [delivered];
        pending := pending + {delivered};
        delivered := delivered + 1;
      }
    }

    /** The read half. */
    method ReadPass() returns (stop: bool)
      modifies this`delivered, this`pending, this`consumed, this`states
      ensures (Now(), stop)
           == ConsumeUntil(Fetched(old(Now())), Range(old(delivered), Fetched(old(Now())).delivered), stopAfterTerminal)
      ensures old(delivered) <= delivered <= old(delivered) + BATCH
      ensures delivered < old(delivered) + BATCH ==> delivered >= |stream|
      ensures forall id :: id in old(pending) && id < old(delivered) ==> id in pending
      ensures forall id :: old(delivered) <= id < delivered && id !in pending ==> Handled(Now(), id)
      ensures !stop ==> forall id :: old(delivered) <= id < delivered && Ackable(old(Now()), id) ==> id !in pending
    {
      var ids := Fetch();
      ghost var fetched := Now();
      PassLeaves(fetched, ids, stopAfterTerminal);
      assert forall id :: id in ids <==> old(delivered) <= id < delivered by {
        forall id | old(delivered) <= id < delivered ensures id in ids {
          assert ids[id - old(delivered)] == id;
        }
      }
      stop := ConsumeAll(ids);
    }

    /** One turn of `main`. */
    method TakeTurn(idle: set<nat>) returns (stop: bool)
      modifies this`delivered, this`pending, this`consumed, this`states
      ensures (Now(), stop) == TurnUntil(old(Now()), idle, stopAfterTerminal)
      ensures !stopAfterTerminal ==> !stop && Now() == MainTurn(old(Now()), idle)
    {
      TurnEnds(Now(), idle);
      stop := ReclaimPass(idle);
      if !stop {
        stop := ReadPass();
      }
    }
  }

  lemma TurnEnds(v: View, idle: set<nat>)
    ensures TurnUntil(v, idle, false) == (MainTurn(v, idle), false)
  {
    var reclaimed := ConsumeEach(v, Claimed(v, idle));
    NothingStops(v, Claimed(v, idle));
    NothingStops(Fetched(reclaimed), Range(reclaimed.delivered, Fetched(reclaimed).delivered));
  }

  lemma AscendingStep(ids: seq<nat>, members: set<nat>, lo: nat, hi: nat)
    requires lo < hi
    ensures ids + Ascending(members, lo, hi)
         == (if lo in members then ids + [lo] else ids) + Ascending(members, lo + 1, hi)
  {
    if lo in members {
      assert ids + ([lo] + Ascending(members, lo + 1, hi)) == ids + [lo] + Ascending(members, lo + 1, hi);
    }
  }

  // ------------------------------------------------------- progress of a pass

  lemma {:induction false} NothingAckable(v: View, ids: seq<nat>)
    requires forall i :: 0 <= i < |ids| ==> !Ackable(v, ids[i])
    ensures ConsumeEach(v, ids) == v
    decreases |ids|
  {
    if |ids| > 0 {
      assert Consume(v, ids[0]) == v;
      NothingAckable(v, ids[1..]);
    }
  }

  lemma {:induction false} PendingShrinks(v: View, ids: seq<nat>)
    ensures ConsumeEach(v, ids).pending <= v.pending
    decreases |ids|
  {
    if |ids| > 0 {
      PendingShrinks(Consume(v, ids[0]), ids[1..]);
    }
  }

  /** A reclaim pass acknowledges something exactly when some message it claims could be acknowledged
      before the pass began. */
  lemma {:induction false} PassProgress(v: View, ids: seq<nat>)
    requires forall i :: 0 <= i < |ids| ==> ids[i] in v.pending
    ensures ConsumeEach(v, ids).pending != v.pending <==> exists i :: 0 <= i < |ids| && Ackable(v, ids[i])
    decreases |ids|
  {
    if forall i :: 0 <= i < |ids| ==> !Ackable(v, ids[i]) {
      NothingAckable(v, ids);
    } else if Ackable(v, ids[0]) {
      PendingShrinks(Consume(v, ids[0]), ids[1..]);
      assert ids[0] !in Consume(v, ids[0]).pending;
    } else {
      assert Consume(v, ids[0]) == v;
      PassProgress(v, ids[1..]);
      var i :| 0 <= i < |ids| && Ackable(v, ids[i]);
      assert ids[1..][i - 1] == ids[i];
    }
  }

  lemma ClaimedPending(v: View, idle: set<nat>)
    ensures forall i :: 0 <= i < |Claimed(v, idle)| ==> Claimed(v, idle)[i] in v.pending
  {
    var all := Ascending(v.pending, 0, |v.stream|);
    forall i | 0 <= i < |Claimed(v, idle)| ensures Claimed(v, idle)[i] in v.pending {
      assert Claimed(v, idle)[i] in Oldest(v);
      assert Claimed(v, idle)[i] in all;
    }
  }

  /** The reclaim pass looks at the `BATCH` oldest messages only. It makes progress if and only if one of
      these is idle, parses and is not behind a gap; what waits behind them never counts. */
  lemma ReclaimProgressIff(v: View, idle: set<nat>)
    ensures ConsumeEach(v, Claimed(v, idle)).pending != v.pending <==>
      exists id :: id in Oldest(v) && id in idle && Ackable(v, id)
  {
    ClaimedPending(v, idle);
    PassProgress(v, Claimed(v, idle));
    if id :| id in Oldest(v) && id in idle && Ackable(v, id) {
      var i :| 0 <= i < |Claimed(v, idle)| && Claimed(v, idle)[i] == id;
    }
    if i :| 0 <= i < |Claimed(v, idle)| && Ackable(v, Claimed(v, idle)[i]) {
      assert Claimed(v, idle)[i] in Oldest(v);
    }
  }
}
