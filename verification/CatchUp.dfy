/** The Agent's loop in the step system: a turn of `main` is a run, every turn of a consumer whose claimed
    messages are idle brings it closer to the end of the Stream, and enough turns bring it there. */
module CatchUp {
  import opened Events
  import opened Protocol
  import opened Invariant
  import opened AgentPreservation
  import opened Delivery
  import opened Recovery
  import opened Batches
  import opened AgentConsumer

  /** What a consumer sees of a protocol state. */
  function ViewOf(s: State): (v: View)
    ensures |v.stream| == |s.stream| && forall i :: 0 <= i < |s.stream| ==> v.stream[i] == Valid(s.stream[i])
    ensures v.delivered == s.group.delivered && v.pending == s.group.pending && v.db == s.db
  {
    var messages := seq(|s.stream|, i requires 0 <= i < |s.stream| => Valid(s.stream[i]));
    View(messages, s.group.delivered, s.group.pending, s.db)
  }

  // --------------------------------------------------------------- passes as runs

  lemma ViewAfterMessage(s: State, c: nat)
    requires Handling(s, c)
    ensures ViewOf(AfterMessage(s, c)) == Consume(ViewOf(s), s.consumers[c].queue[0])
  {
    assert ViewOf(AfterMessage(s, c)).stream == ViewOf(s).stream;
  }

  /** Undisturbed, `_consume_message` is the step system's read, settle and acknowledge. */
  lemma ConsumeIsSteps(s: State, c: nat) returns (steps: seq<Step>)
    requires Handling(s, c) && s.consumers[c].phase.Waiting?
    ensures Leads(s, steps, AfterMessage(s, c)) && AllWorking(steps, c)
    ensures ViewOf(AfterMessage(s, c)) == Consume(ViewOf(s), s.consumers[c].queue[0])
  {
    steps := MessageSteps(s, c);
    ViewAfterMessage(s, c);
  }

  lemma {:induction false} ViewAfterQueue(s: State, c: nat)
    requires Ready(s, c)
    ensures ViewOf(AfterQueue(s, c)) == ConsumeEach(ViewOf(s), s.consumers[c].queue)
    decreases |s.consumers[c].queue|
  {
    if s.consumers[c].queue != [] {
      ViewAfterMessage(s, c);
      ViewAfterQueue(AfterMessage(s, c), c);
    }
  }

  /** XREADGROUP with its count, on an untrimmed Stream. */
  lemma FetchedIsDelivered(s: State, c: nat)
    requires s.trimmed == 0
    ensures ViewOf(Delivered(s, c, BATCH)) == Fetched(ViewOf(s))
    ensures Delivered(s, c, BATCH).consumers[c].queue == Range(s.group.delivered, Fetched(ViewOf(s)).delivered)
  {
    assert ViewOf(Delivered(s, c, BATCH)).stream == ViewOf(s).stream;
  }

  function Claiming(s: State, c: nat, idle: set<nat>): State {
    s.(consumers := s.consumers[c := Protocol.Consumer(Claimed(ViewOf(s), idle), Waiting)])
  }

  lemma ClaimingIsReady(s: State, c: nat, idle: set<nat>)
    ensures Ready(Claiming(s, c, idle), c) && ViewOf(Claiming(s, c, idle)) == ViewOf(s)
  {
    var v := ViewOf(s);
    ClaimedPending(v, idle);
    forall i | 0 <= i < |Claimed(v, idle)| ensures Claimed(v, idle)[i] < |s.stream| {
      assert Claimed(v, idle)[i] in Oldest(v);
    }
    assert ViewOf(Claiming(s, c, idle)).stream == v.stream;
  }

  function Reclaimed(s: State, c: nat, idle: set<nat>): State {
    ClaimingIsReady(s, c, idle);
    AfterQueue(Claiming(s, c, idle), c)
  }

  lemma ReclaimedLeaves(s: State, c: nat, idle: set<nat>)
    ensures Leaves(s, Reclaimed(s, c, idle), c) && Reclaimed(s, c, idle).group.delivered == s.group.delivered
  {
    ClaimingIsReady(s, c, idle);
    GivenLeaves(s, s.group, c, Claimed(ViewOf(s), idle));
  }

  /** The group has delivered nothing that is not on the Stream, and nothing was deleted. */
  predicate Whole(s: State) {
    s.group.delivered <= |s.stream| && s.trimmed == 0
  }

  lemma DeliveredIsReady(s: State, c: nat)
    requires Whole(s)
    ensures Ready(Delivered(s, c, BATCH), c)
  {
  }

  /** The state after the read half of a turn. */
  function ReadOn(s: State, c: nat): State
    requires Whole(s)
  {
    DeliveredIsReady(s, c);
    AfterQueue(Delivered(s, c, BATCH), c)
  }

  lemma ReadOnLeaves(s: State, c: nat)
    requires Whole(s)
    ensures Leaves(s, ReadOn(s, c), c)
    ensures ReadOn(s, c).group.delivered == Fetched(ViewOf(s)).delivered <= |s.stream|
  {
    var fetched := Delivered(s, c, BATCH);
    DeliveredIsReady(s, c);
    GivenLeaves(s, fetched.group, c, fetched.consumers[c].queue);
    FetchedIsDelivered(s, c);
  }

  /** The state after one turn of `main` by consumer `c`, nobody else doing anything. */
  function AfterTurn(s: State, c: nat, idle: set<nat>): State
    requires Whole(s)
  {
    ReclaimedLeaves(s, c, idle);
    ReadOn(Reclaimed(s, c, idle), c)
  }

  lemma TurnLeaves(s: State, c: nat, idle: set<nat>)
    requires Whole(s)
    ensures Leaves(s, AfterTurn(s, c, idle), c) && Whole(AfterTurn(s, c, idle))
  {
    ReclaimedLeaves(s, c, idle);
    var mid := Reclaimed(s, c, idle);
    ReadOnLeaves(mid, c);
    LeavesTwice(s, mid, AfterTurn(s, c, idle), c);
  }

  lemma LeavesTwice(s: State, t: State, u: State, c: nat)
    requires Leaves(s, t, c) && Leaves(t, u, c)
    ensures Leaves(s, u, c)
  {
    assert s.consumers[c := Protocol.Consumer([], Waiting)][c := Protocol.Consumer([], Waiting)]
        == s.consumers[c := Protocol.Consumer([], Waiting)];
  }

  /** The turn the loop takes and the turn of the step system are the same. */
  lemma ViewAfterTurn(s: State, c: nat, idle: set<nat>)
    requires Whole(s)
    ensures ViewOf(AfterTurn(s, c, idle)) == MainTurn(ViewOf(s), idle)
  {
    ClaimingIsReady(s, c, idle);
    ViewAfterQueue(Claiming(s, c, idle), c);
    ReclaimedLeaves(s, c, idle);
    var mid := Reclaimed(s, c, idle);
    FetchedIsDelivered(mid, c);
    DeliveredIsReady(mid, c);
    ViewAfterQueue(Delivered(mid, c, BATCH), c);
  }

  predicate Rising(ids: seq<nat>) {
    forall i, j :: 0 <= i < j < |ids| ==> ids[i] < ids[j]
  }

  predicate Below(ids: seq<nat>, bound: nat) {
    forall i :: 0 <= i < |ids| ==> ids[i] < bound
  }

  lemma {:induction false} IdleRises(ids: seq<nat>, n: nat, idle: set<nat>)
    requires n <= |ids| && Rising(ids)
    ensures Rising(OnlyIdle(ids, n, idle)) && (n < |ids| ==> Below(OnlyIdle(ids, n, idle), ids[n]))
  {
    if n > 0 {
      IdleRises(ids, n - 1, idle);
    }
  }

  lemma ClaimedRises(s: State, c: nat, idle: set<nat>)
    requires CanFetch(s, c) && s.trimmed == 0
    ensures CanClaim(s, c, Claimed(ViewOf(s), idle))
  {
    var v := ViewOf(s);
    ClaimedPending(v, idle);
    assert Rising(Oldest(v));
    IdleRises(Oldest(v), |Oldest(v)|, idle);
  }

  /** A turn is a run: one claim of the idle ones among the `BATCH` oldest pending messages, one read of
      the next `BATCH`, and in between nothing but dealing with what was claimed and read. */
  lemma TurnIsSteps(s: State, c: nat, idle: set<nat>) returns (first: seq<Step>, second: seq<Step>)
    requires CanFetch(s, c) && Whole(s)
    ensures AllWorking(first, c) && AllWorking(second, c)
    ensures Leads(s, [Claim(c, Claimed(ViewOf(s), idle))] + first + [Deliver(c, BATCH)] + second, AfterTurn(s, c, idle))
  {
    var claiming := Claiming(s, c, idle);
    ClaimedRises(s, c, idle);
    ClaimStep(s, c, Claimed(ViewOf(s), idle));
    ClaimingIsReady(s, c, idle);
    first := QueueSteps(claiming, c);
    ReclaimedLeaves(s, c, idle);
    var mid := Reclaimed(s, c, idle);
    DeliverStep(mid, c, BATCH);
    DeliveredIsReady(mid, c);
    var fetched := Delivered(mid, c, BATCH);
    second := QueueSteps(fetched, c);
    var claim := [Claim(c, Claimed(ViewOf(s), idle))];
    Join(s, claim, claiming, first, mid);
    Join(s, claim + first, mid, [Deliver(c, BATCH)], fetched);
    Join(s, claim + first + [Deliver(c, BATCH)], fetched, second, AfterTurn(s, c, idle));
  }

  // ---------------------------------------------------------- progress of a turn

  lemma OldestHeld(s: State, c: nat)
    requires Inv(s)
    ensures HoldsOldest(s.(consumers := s.consumers[c := Protocol.Consumer(Oldest(ViewOf(s)), Waiting)]), c)
  {
    var ids := Oldest(ViewOf(s));
    var all := Ascending(s.group.pending, 0, |s.stream|);
    assert ids == if |all| <= BATCH then all else all[..BATCH];
    forall m, i | m in s.group.pending && m !in ids && 0 <= i < |ids| ensures ids[i] < m {
      var j :| 0 <= j < |all| && all[j] == m;
      assert j >= |ids|;
    }
  }

  /** All messages XPENDING shows are idle. */
  predicate Patient(v: View, idle: set<nat>) {
    forall i :: 0 <= i < |Oldest(v)| ==> Oldest(v)[i] in idle
  }

  lemma {:induction false} AllIdle(ids: seq<nat>, n: nat, idle: set<nat>)
    requires n <= |ids| && forall i :: 0 <= i < |ids| ==> ids[i] in idle
    ensures OnlyIdle(ids, n, idle) == ids[..n]
  {
    if n > 0 {
      AllIdle(ids, n - 1, idle);
      assert ids[..n] == ids[..n - 1] + [ids[n - 1]];
    }
  }

  lemma PatientClaimsOldest(v: View, idle: set<nat>)
    requires Patient(v, idle)
    ensures Claimed(v, idle) == Oldest(v)
  {
    AllIdle(Oldest(v), |Oldest(v)|, idle);
    assert Oldest(v)[..|Oldest(v)|] == Oldest(v);
  }

  /** A pass over idle messages acknowledges all it looks at. */
  lemma ReclaimAcksOldest(s: State, c: nat, idle: set<nat>)
    requires Inv(s) && s.group.start == 0 && s.trimmed == 0 && Patient(ViewOf(s), idle)
    ensures Reclaimed(s, c, idle).group.pending == s.group.pending - ToSet(Oldest(ViewOf(s)))
  {
    PatientClaimsOldest(ViewOf(s), idle);
    OldestHeld(s, c);
    SetConsumerKeeps(s, c, Protocol.Consumer(Oldest(ViewOf(s)), Waiting));
    ReclaimPassAcksAll(Claiming(s, c, idle), c);
  }

  lemma {:induction false} AscendingSize(ids: seq<nat>)
    requires Rising(ids)
    ensures |ToSet(ids)| == |ids|
  {
    if |ids| > 0 {
      var n := |ids| - 1;
      AscendingSize(ids[..n]);
      assert ids == ids[..n] + [ids[n]];
      assert ToSet(ids) == ToSet(ids[..n]) + {ids[n]};
      assert ids[n] !in ToSet(ids[..n]);
    }
  }

  lemma OldestCount(v: View)
    requires forall id :: id in v.pending ==> id < |v.stream|
    ensures ToSet(Oldest(v)) <= v.pending
    ensures |ToSet(Oldest(v))| == if |v.pending| <= BATCH then |v.pending| else BATCH
  {
    var all := Ascending(v.pending, 0, |v.stream|);
    assert ToSet(all) == v.pending;
    AscendingSize(all);
    AscendingSize(Oldest(v));
  }

  lemma RemoveAll(all: set<nat>, some: set<nat>)
    requires some <= all
    ensures |all - some| == |all| - |some|
  {
    assert all == (all - some) + some;
  }

  /** Each reclaim pass lowers the number of unacknowledged messages by `BATCH`, or to zero. */
  lemma ReclaimCounts(s: State, c: nat, idle: set<nat>)
    requires Inv(s) && s.group.start == 0 && s.trimmed == 0 && Patient(ViewOf(s), idle)
    ensures |Reclaimed(s, c, idle).group.pending|
         == if |s.group.pending| <= BATCH then 0 else |s.group.pending| - BATCH
  {
    ReclaimAcksOldest(s, c, idle);
    OldestCount(ViewOf(s));
    RemoveAll(s.group.pending, ToSet(Oldest(ViewOf(s))));
  }

  lemma {:induction false} QueuePendingShrinks(s: State, c: nat)
    requires Ready(s, c)
    ensures AfterQueue(s, c).group.pending <= s.group.pending
    decreases |s.consumers[c].queue|
  {
    if s.consumers[c].queue != [] {
      QueuePendingShrinks(AfterMessage(s, c), c);
    }
  }

  lemma AddFew(some: set<nat>, more: set<nat>, lo: nat, hi: nat)
    requires lo <= hi && more <= some + ToSet(Range(lo, hi))
    ensures |more| <= |some| + (hi - lo)
  {
    AscendingSize(Range(lo, hi));
    SubsetSize(more, some + ToSet(Range(lo, hi)));
    UnionSize(some, ToSet(Range(lo, hi)));
  }

  lemma SubsetSize(some: set<nat>, all: set<nat>)
    requires some <= all
    ensures |some| <= |all|
  {
    assert all == some + (all - some);
  }

  lemma UnionSize(a: set<nat>, b: set<nat>)
    ensures |a + b| <= |a| + |b|
  {
    assert a + b == a + (b - a);
    SubsetSize(b - a, b);
  }

  /** What is left to do: twice the undelivered messages and the unacknowledged ones. */
  function Backlog(s: State): nat {
    2 * (if s.group.delivered <= |s.stream| then |s.stream| - s.group.delivered else 0) + |s.group.pending|
  }

  /** How many messages the next read returns. */
  function NextRead(s: State): nat
    requires Whole(s)
  {
    if |s.stream| - s.group.delivered < BATCH then |s.stream| - s.group.delivered else BATCH
  }

  lemma ReadCounts(s: State, c: nat)
    requires Whole(s)
    ensures ReadOn(s, c).group.delivered == s.group.delivered + NextRead(s)
    ensures |ReadOn(s, c).group.pending| <= |s.group.pending| + NextRead(s)
  {
    ReadOnLeaves(s, c);
    DeliveredIsReady(s, c);
    var fetched := Delivered(s, c, BATCH);
    QueuePendingShrinks(fetched, c);
    AddFew(s.group.pending, ReadOn(s, c).group.pending, s.group.delivered, fetched.group.delivered);
  }

  /** Every turn shortens the backlog until there is none, and then there stays none. */
  lemma TurnShortensBacklog(s: State, c: nat, idle: set<nat>)
    requires Inv(s) && s.group.start == 0 && Whole(s) && Patient(ViewOf(s), idle)
    ensures Backlog(AfterTurn(s, c, idle)) < Backlog(s) || Backlog(AfterTurn(s, c, idle)) == Backlog(s) == 0
  {
    ReclaimCounts(s, c, idle);
    ReclaimedLeaves(s, c, idle);
    ReadCounts(Reclaimed(s, c, idle), c);
    TurnLeaves(s, c, idle);
  }

  // ------------------------------------------------------------------ many turns

  /** One turn after the other; `idles` says what is idle at each. */
  function AfterTurns(s: State, c: nat, idles: seq<set<nat>>): State
    requires Whole(s)
    decreases |idles|
  {
    if |idles| == 0 then s
    else
      TurnLeaves(s, c, idles[0]);
      AfterTurns(AfterTurn(s, c, idles[0]), c, idles[1..])
  }

  /** At every turn the messages looked at are idle. */
  predicate AlwaysPatient(s: State, c: nat, idles: seq<set<nat>>)
    requires Whole(s)
    decreases |idles|
  {
    if |idles| == 0 then true
    else
      TurnLeaves(s, c, idles[0]);
      Patient(ViewOf(s), idles[0]) && AlwaysPatient(AfterTurn(s, c, idles[0]), c, idles[1..])
  }

  lemma TurnKeeps(s: State, c: nat, idle: set<nat>)
    requires Inv(s) && CanFetch(s, c) && Whole(s)
    ensures Inv(AfterTurn(s, c, idle)) && CanFetch(AfterTurn(s, c, idle), c)
  {
    var first, second := TurnIsSteps(s, c, idle);
    RunKeeps(s, [Claim(c, Claimed(ViewOf(s), idle))] + first + [Deliver(c, BATCH)] + second, AfterTurn(s, c, idle));
    TurnLeaves(s, c, idle);
  }

  /** As many turns as the backlog is long are enough, whatever is idle besides. */
  lemma {:induction false} TurnsReachTheEnd(s: State, c: nat, idles: seq<set<nat>>)
    requires Inv(s) && CanFetch(s, c) && s.group.start == 0 && Whole(s)
    requires AlwaysPatient(s, c, idles) && |idles| >= Backlog(s)
    ensures var t := AfterTurns(s, c, idles);
      && Inv(t) && Whole(t) && Backlog(t) == 0
      && t == s.(group := t.group, consumers := t.consumers, db := t.db) && t.group.start == 0
    decreases |idles|
  {
    if |idles| > 0 {
      TurnShortensBacklog(s, c, idles[0]);
      TurnKeeps(s, c, idles[0]);
      TurnLeaves(s, c, idles[0]);
      TurnsReachTheEnd(AfterTurn(s, c, idles[0]), c, idles[1..]);
    }
  }

  /** The steps of consumer `c` in `main`: it claims and reads `BATCH` messages at most. */
  predicate MainStep(step: Step, c: nat) {
    Working(step, c) || step == Deliver(c, BATCH) || (step.Claim? && step.c == c && |step.ids| <= BATCH)
  }

  lemma {:induction false} FewIdle(ids: seq<nat>, n: nat, idle: set<nat>)
    requires n <= |ids|
    ensures |OnlyIdle(ids, n, idle)| <= n
  {
    if n > 0 {
      FewIdle(ids, n - 1, idle);
    }
  }

  predicate AllMain(steps: seq<Step>, c: nat) {
    forall i :: 0 <= i < |steps| ==> MainStep(steps[i], c)
  }

  lemma TurnIsMain(c: nat, ids: seq<nat>, first: seq<Step>, second: seq<Step>)
    requires |ids| <= BATCH && AllWorking(first, c) && AllWorking(second, c)
    ensures AllMain([Claim(c, ids)] + first + [Deliver(c, BATCH)] + second, c)
  {
  }

  lemma TurnRun(s: State, c: nat, idle: set<nat>) returns (steps: seq<Step>)
    requires CanFetch(s, c) && Whole(s)
    ensures Leads(s, steps, AfterTurn(s, c, idle)) && AllMain(steps, c)
  {
    var first, second := TurnIsSteps(s, c, idle);
    FewIdle(Oldest(ViewOf(s)), |Oldest(ViewOf(s))|, idle);
    TurnIsMain(c, Claimed(ViewOf(s), idle), first, second);
    steps := [Claim(c, Claimed(ViewOf(s), idle))] + first + [Deliver(c, BATCH)] + second;
  }

  /** Turns are a run of steps `main` can take. */
  lemma {:induction false} TurnsAreSteps(s: State, c: nat, idles: seq<set<nat>>) returns (steps: seq<Step>)
    requires CanFetch(s, c) && Whole(s)
    ensures Leads(s, steps, AfterTurns(s, c, idles)) && AllMain(steps, c)
    decreases |idles|
  {
    if |idles| == 0 {
      steps := [];
    } else {
      var first := TurnRun(s, c, idles[0]);
      TurnLeaves(s, c, idles[0]);
      var rest := TurnsAreSteps(AfterTurn(s, c, idles[0]), c, idles[1..]);
      Join(s, first, AfterTurn(s, c, idles[0]), rest, AfterTurns(s, c, idles));
      steps := first + rest;
    }
  }

  // ---------------------------------------------------------------- main results

  /** A message of a Stream that is acknowledged to its end is applied. */
  lemma AppliedToTheEnd(stream: seq<Event>, group: Group, db: AgentDb, x: Uuid, n: nat)
    requires GroupOk(stream, 0, group) && AckedOk(stream, group, db) && Seen(stream, |stream|, x, n)
    requires group.start == 0 && group.pending == {} && group.delivered == |stream|
    ensures n <= LastSequence(db, x)
  {
    if n > 0 {
      var j :| 0 <= j < |stream| && stream[j].execution == x && stream[j].sequence == n;
      assert j in group.acked;
      assert Applied(db, stream[j]);
    }
  }

  lemma AllApplied(s: State, x: Uuid)
    requires Inv(s) && s.trimmed == 0 && s.group.start == 0
    requires s.group.pending == {} && s.group.delivered == |s.stream| && forall k :: !IsPending(s.outbox, k)
    ensures RowsOf(s.db.consumed, x) == Rows(Of(s.history, x))
  {
    var n := |Of(s.history, x)|;
    assert DbRowsOk(s.history, s.db, x);
    assert !IsPending(s.outbox, Key(x, n));
    AppliedToTheEnd(s.stream, s.group, s.db, x, n);
    assert Of(s.history, x)[..n] == Of(s.history, x);
  }

  /** The consumer catches up. In every reachable state of a group that reads an untrimmed Stream from its
      start, a free consumer that is alone for enough turns, and finds idle what it looks at, has
      acknowledged the whole Stream; and once nothing is PENDING it has applied the whole history. */
  lemma ConsumerCatchesUp(s: State, c: nat, idles: seq<set<nat>>)
    requires Reachable(s) && s.trimmed == 0 && s.group.start == 0 && CanFetch(s, c)
    requires Whole(s) && AlwaysPatient(s, c, idles) && |idles| >= Backlog(s)
    ensures var t := AfterTurns(s, c, idles);
      && t.group.pending == {} && t.group.delivered == |t.stream| && t.stream == s.stream
      && ((forall k :: !IsPending(s.outbox, k)) ==> forall x :: RowsOf(t.db.consumed, x) == Rows(Of(s.history, x)))
  {
    ReachableInv(s);
    TurnsReachTheEnd(s, c, idles);
    var t := AfterTurns(s, c, idles);
    if forall k :: !IsPending(s.outbox, k) {
      forall x ensures RowsOf(t.db.consumed, x) == Rows(Of(s.history, x)) {
        AllApplied(t, x);
      }
    }
  }

  /** Everything pending can be idle at every turn. */
  lemma {:induction false} Patience(s: State, c: nat, n: nat) returns (idles: seq<set<nat>>)
    requires Whole(s)
    ensures AlwaysPatient(s, c, idles) && |idles| == n
    decreases n
  {
    if n == 0 {
      idles := [];
    } else {
      var idle := s.group.pending;
      TurnLeaves(s, c, idle);
      var rest := Patience(AfterTurn(s, c, idle), c, n - 1);
      idles := [idle] + rest;
      assert idles[1..] == rest;
      assert Patient(ViewOf(s), idle);
    }
  }

  /** The group exists, and transactions nobody finishes have been rolled back. */
  function Quieted(s: State): State {
    (if s.group.created then s else GroupCreated(s, true)).(publishers := map[])
  }

  lemma Quiet(s: State) returns (steps: seq<Step>)
    requires Inv(s) && s.trimmed == 0
    ensures Leads(s, steps, Quieted(s)) && Inv(Quieted(s))
  {
    if s.group.created {
      steps := StopPublishers(s);
    } else {
      var grouped := GroupCreated(s, true);
      GroupStep(s, true);
      var rest := StopPublishers(grouped);
      Join(s, [CreateGroup(true)], grouped, rest, Quieted(s));
      steps := [CreateGroup(true)] + rest;
    }
    RunKeeps(s, steps, Quieted(s));
  }

  /** Wherever processes stopped and whatever was repeated or lost on the way, the system recovers. Once
      transactions nobody finishes are rolled back, calls of `publish_batch`, of any batch size, and
      after them turns of `main`, as the code makes them, leave the Agents with the whole durable
      history of every Execution and nothing unacknowledged. */
  lemma AlwaysRecoverable(s: State, limit: nat, c: nat)
    returns (before: seq<Step>, batches: seq<Batch>, published: State, idles: seq<set<nat>>, turns: seq<Step>, t: State)
    requires Reachable(s) && s.trimmed == 0 && (s.group.created ==> s.group.start == 0)
    requires limit > 0 && c !in s.consumers
    ensures Leads(s, before + CallsSteps(batches) + turns, t)
    ensures Leads(s, before, Quieted(s)) && Calls(Quieted(s), limit, batches, published)
    ensures Whole(published) && t == AfterTurns(published, c, idles) && AllMain(turns, c)
    ensures t.history == s.history && t.group.pending == {} && forall k :: !IsPending(t.outbox, k)
    ensures forall x :: RowsOf(t.db.consumed, x) == Rows(Of(s.history, x))
  {
    ReachableInv(s);
    var quiet := Quieted(s);
    before := Quiet(s);
    batches, published := PublishEverything(quiet, limit);
    CallsAreSteps(quiet, limit, batches, published);
    RunKeeps(quiet, CallsSteps(batches), published);
    idles, turns, t := ReadEverything(published, c);
    Join(s, before, quiet, CallsSteps(batches), published);
    Join(s, before + CallsSteps(batches), published, turns, t);
  }

  lemma ReadEverything(s: State, c: nat) returns (idles: seq<set<nat>>, turns: seq<Step>, t: State)
    requires Inv(s) && CanFetch(s, c) && s.group.start == 0 && Whole(s) && forall k :: !IsPending(s.outbox, k)
    ensures t == AfterTurns(s, c, idles) && Leads(s, turns, t) && AllMain(turns, c)
    ensures t.outbox == s.outbox && t.history == s.history && t.group.pending == {}
    ensures forall x :: RowsOf(t.db.consumed, x) == Rows(Of(s.history, x))
  {
    idles := Patience(s, c, Backlog(s));
    TurnsReachTheEnd(s, c, idles);
    t := AfterTurns(s, c, idles);
    turns := TurnsAreSteps(s, c, idles);
    forall x ensures RowsOf(t.db.consumed, x) == Rows(Of(s.history, x)) {
      AllApplied(t, x);
    }
  }

  lemma PublishEverything(s: State, limit: nat) returns (batches: seq<Batch>, t: State)
    requires s.publishers == map[] && limit > 0
    ensures Calls(s, limit, batches, t) && forall k :: !IsPending(t.outbox, k)
  {
    var now := SomeTime(s.outbox);
    batches, t := MakeCalls(s, limit, now, |PendingKeys(s.outbox)|);
    CallsPublishAll(s, limit, batches, t);
  }
}
