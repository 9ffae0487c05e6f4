/** The publishing loop of `publish_batch`: rows are sent one by one and updated in place; the first
    failure of an Execution blocks its later rows, a network error ends the loop. */
module Publication {
  import opened Events
  import opened Protocol

  /** A locked Outbox row. */
  datatype Row = Row(event: Event, status: RowStatus, attempts: nat, availableAt: nat, failed: bool)

  /** What the loop learns of one row: sent, refused before XADD, or a network error; with the clock then. */
  datatype Reply = Ok | Rejected(clock: nat) | Network(landed: bool, clock: nat)

  function Power(n: nat): nat {
    if n == 0 then 1 else 2 * Power(n - 1)
  }

  function Min(a: nat, b: nat): nat {
    if a < b then a else b
  }

  /** Seconds before a row is tried again: doubled with each attempt, a minute at most. */
  function Backoff(attempts: nat): nat {
    Min(Power(Min(attempts, 6)), 60)
  }

  lemma BackoffGrowsToAMinute(attempts: nat)
    requires attempts >= 1
    ensures 2 <= Backoff(attempts) <= Backoff(attempts + 1) <= 60
    ensures Backoff(attempts) == 60 <==> attempts >= 6
    ensures attempts < 5 ==> Backoff(attempts + 1) == 2 * Backoff(attempts)
  {
    assert Power(1) == 2 && Power(2) == 4 && Power(3) == 8 && Power(4) == 16;
    assert Power(5) == 2 * Power(4) && Power(6) == 2 * Power(5);
  }

  function Failed(row: Row, clock: nat): Row {
    row.(attempts := row.attempts + 1, availableAt := clock + Backoff(row.attempts + 1), failed := true)
  }

  /** The protocol's name for what happened. */
  function OutcomeOf(row: Row, reply: Reply): Outcome {
    match reply
    case Ok => Sent
    case Rejected(clock) => Refused(clock + Backoff(row.attempts + 1))
    case Network(landed, clock) => Unknown(landed, clock + Backoff(row.attempts + 1))
  }

  function Keys(rows: seq<Row>): (keys: seq<Key>)
    ensures |keys| == |rows| && forall i :: 0 <= i < |rows| ==> keys[i] == KeyOf(rows[i].event)
  {
    seq(|rows|, i requires 0 <= i < |rows| => KeyOf(rows[i].event))
  }

  predicate DistinctKeys(rows: seq<Row>) {
    forall i, j :: 0 <= i < j < |rows| ==> KeyOf(rows[i].event) != KeyOf(rows[j].event)
  }

  /** A transaction about to publish `rows`. */
  function Opened(rows: seq<Row>, now: nat): Publisher {
    Publisher(now, Keys(rows), Keys(rows), true, 0, {}, map[], {}, false)
  }

  /** The first `n` turns of the protocol's loop. */
  function Turns(rows: seq<Row>, replies: seq<Reply>, now: nat, n: nat): (pub: Publisher)
    requires n <= |rows| == |replies|
    ensures pub.batch == Keys(rows) && pub.next <= n && (pub.next == n || pub.stopped)
  {
    if n == 0 then Opened(rows, now)
    else
      var before := Turns(rows, replies, now, n - 1);
      if before.stopped then before else Turn(before, OutcomeOf(rows[n - 1], replies[n - 1]))
  }

  /** The messages these turns put on the Stream. */
  function Added(rows: seq<Row>, replies: seq<Reply>, now: nat, n: nat): seq<Event>
    requires n <= |rows| == |replies|
  {
    if n == 0 then []
    else
      var before := Turns(rows, replies, now, n - 1);
      var earlier := Added(rows, replies, now, n - 1);
      if !before.stopped && Adds(before, OutcomeOf(rows[n - 1], replies[n - 1])) then earlier + [rows[n - 1].event]
      else earlier
  }

  /** A row as the transaction leaves it. */
  predicate Settles(pub: Publisher, before: Row, after: Row) {
    var key := KeyOf(before.event);
    if key in pub.marked then after == before.(status := Published, failed := false)
    else if key in pub.delayed then
      after == before.(attempts := before.attempts + 1, availableAt := pub.delayed[key], failed := true)
    else after == before
  }

  /** Marks and delays name rows already dealt with. */
  lemma {:induction false} TurnsBehind(rows: seq<Row>, replies: seq<Reply>, now: nat, n: nat)
    requires n <= |rows| == |replies| && DistinctKeys(rows)
    ensures var pub := Turns(rows, replies, now, n);
      forall i :: n <= i < |rows| ==> KeyOf(rows[i].event) !in pub.marked && KeyOf(rows[i].event) !in pub.delayed
  {
    if n > 0 {
      var before := Turns(rows, replies, now, n - 1);
      TurnsBehind(rows, replies, now, n - 1);
      if !before.stopped {
        forall i | n <= i < |rows|
          ensures var after := Turn(before, OutcomeOf(rows[n - 1], replies[n - 1]));
            KeyOf(rows[i].event) !in after.marked && KeyOf(rows[i].event) !in after.delayed
        {
          assert KeyOf(rows[n - 1].event) != KeyOf(rows[i].event);
          TurnBehind(before, OutcomeOf(rows[n - 1], replies[n - 1]), KeyOf(rows[i].event));
        }
      }
    }
  }

  lemma TurnBehind(pub: Publisher, outcome: Outcome, k: Key)
    requires pub.next < |pub.batch| && pub.batch[pub.next] != k && k !in pub.marked && k !in pub.delayed
    ensures k !in Turn(pub, outcome).marked && k !in Turn(pub, outcome).delayed
  {
  }

  /** A row after its turn, unless its Execution is blocked. */
  function RowAfter(row: Row, reply: Reply): Row {
    match reply
    case Ok => row.(status := Published, failed := false)
    case Rejected(clock) => Failed(row, clock)
    case Network(_, clock) => Failed(row, clock)
  }

  lemma TurnSettles(pub: Publisher, row: Row, reply: Reply)
    requires pub.next < |pub.batch| && pub.batch[pub.next] == KeyOf(row.event)
    requires KeyOf(row.event) !in pub.marked && KeyOf(row.event) !in pub.delayed
    ensures var after := Turn(pub, OutcomeOf(row, reply));
      Settles(after, row, if row.event.execution in pub.blocked then row else RowAfter(row, reply))
  {
  }

  lemma TurnKeepsSettled(pub: Publisher, outcome: Outcome, before: Row, after: Row)
    requires pub.next < |pub.batch| && pub.batch[pub.next] != KeyOf(before.event) && Settles(pub, before, after)
    ensures Settles(Turn(pub, outcome), before, after)
  {
  }

  /** The rows in the middle of the loop: dealt with below `n`, untouched from there on. */
  ghost predicate Halfway(pub: Publisher, was: seq<Row>, rows: seq<Row>, n: nat) {
    && |rows| == |was|
    && (forall j :: 0 <= j < n && j < |was| ==> Settles(pub, was[j], rows[j]))
    && (forall j :: n <= j < |was| ==> rows[j] == was[j])
  }

  lemma HalfwayNext(was: seq<Row>, replies: seq<Reply>, now: nat, rows: seq<Row>, n: nat)
    requires n < |was| == |replies| && DistinctKeys(was) && Halfway(Turns(was, replies, now, n), was, rows, n)
    ensures var pub := Turns(was, replies, now, n);
      var row := if pub.stopped || was[n].event.execution in pub.blocked then was[n] else RowAfter(was[n], replies[n]);
      Halfway(Turns(was, replies, now, n + 1), was, rows[n := row], n + 1)
  {
    var pub := Turns(was, replies, now, n);
    TurnsBehind(was, replies, now, n);
    if !pub.stopped {
      assert pub.batch[pub.next] == KeyOf(was[n].event);
      TurnSettles(pub, was[n], replies[n]);
      forall j | 0 <= j < n ensures Settles(Turn(pub, OutcomeOf(was[n], replies[n])), was[j], rows[j]) {
        TurnKeepsSettled(pub, OutcomeOf(was[n], replies[n]), was[j], rows[j]);
      }
    }
  }

  /** Whether the turn of row `n` does anything. */
  predicate Active(was: seq<Row>, replies: seq<Reply>, now: nat, n: nat)
    requires n < |was| == |replies|
  {
    var pub := Turns(was, replies, now, n);
    !pub.stopped && was[n].event.execution !in pub.blocked
  }

  lemma IdleNext(was: seq<Row>, replies: seq<Reply>, now: nat, n: nat)
    requires n < |was| == |replies| && !Active(was, replies, now, n)
    ensures var pub, next := Turns(was, replies, now, n), Turns(was, replies, now, n + 1);
      next.marked == pub.marked && next.blocked == pub.blocked && next.stopped == pub.stopped
    ensures Added(was, replies, now, n + 1) == Added(was, replies, now, n)
  {
    var pub := Turns(was, replies, now, n);
    if !pub.stopped {
      TurnIdle(pub, OutcomeOf(was[n], replies[n]));
    }
  }

  lemma TurnIdle(pub: Publisher, outcome: Outcome)
    requires pub.next < |pub.batch| && pub.batch[pub.next].execution in pub.blocked
    ensures Turn(pub, outcome) == pub.(next := pub.next + 1) && !Adds(pub, outcome)
  {
  }

  /** Whether the message is on the Stream in the end. */
  predicate Lands(reply: Reply) {
    reply.Ok? || (reply.Network? && reply.landed)
  }

  lemma ActiveNext(was: seq<Row>, replies: seq<Reply>, now: nat, n: nat)
    requires n < |was| == |replies| && DistinctKeys(was) && Active(was, replies, now, n)
    ensures var pub, next := Turns(was, replies, now, n), Turns(was, replies, now, n + 1);
      && |next.marked| == |pub.marked| + (if replies[n].Ok? then 1 else 0)
      && next.blocked == (if replies[n].Ok? then pub.blocked else pub.blocked + {was[n].event.execution})
      && next.stopped == replies[n].Network?
    ensures Added(was, replies, now, n + 1) == Added(was, replies, now, n)
      + if Lands(replies[n]) then [was[n].event] else []
  {
    TurnsBehind(was, replies, now, n);
  }

  /** The rows and the variables of the loop. */
  datatype Loop = Loop(rows: seq<Row>, stopped: bool, blocked: set<Uuid>, sent: seq<Event>, published: nat)

  /** The loop after `n` turns of the protocol. */
  ghost predicate Progress(was: seq<Row>, replies: seq<Reply>, now: nat, n: nat, loop: Loop)
    requires n <= |was| == |replies|
  {
    var pub := Turns(was, replies, now, n);
    && loop.stopped == pub.stopped && loop.blocked == pub.blocked && loop.published == |pub.marked|
    && loop.sent == Added(was, replies, now, n) && Halfway(pub, was, loop.rows, n)
  }

  lemma PassOver(was: seq<Row>, replies: seq<Reply>, now: nat, n: nat, loop: Loop)
    requires n < |was| == |replies| && DistinctKeys(was) && Progress(was, replies, now, n, loop)
    requires loop.stopped || loop.rows[n].event.execution in loop.blocked
    ensures Progress(was, replies, now, n + 1, loop)
  {
    HalfwayNext(was, replies, now, loop.rows, n);
    IdleNext(was, replies, now, n);
    assert loop.rows[n := was[n]] == loop.rows;
  }

  /** What the loop does with row `n` of an Execution that is not blocked. */
  function AfterSending(loop: Loop, n: nat, reply: Reply): Loop
    requires n < |loop.rows|
  {
    var row := loop.rows[n];
    Loop(loop.rows[n := RowAfter(row, reply)], reply.Network?,
         if reply.Ok? then loop.blocked else loop.blocked + {row.event.execution},
         if Lands(reply) then loop.sent + [row.event] else loop.sent,
         if reply.Ok? then loop.published + 1 else loop.published)
  }

  lemma SendOne(was: seq<Row>, replies: seq<Reply>, now: nat, n: nat, loop: Loop)
    requires n < |was| == |replies| && DistinctKeys(was) && Progress(was, replies, now, n, loop)
    requires !loop.stopped && loop.rows[n].event.execution !in loop.blocked
    ensures Progress(was, replies, now, n + 1, AfterSending(loop, n, replies[n]))
  {
    HalfwayNext(was, replies, now, loop.rows, n);
    ActiveNext(was, replies, now, n);
  }

  function AfterRow(loop: Loop, n: nat, reply: Reply): Loop
    requires n < |loop.rows|
  {
    if loop.stopped || loop.rows[n].event.execution in loop.blocked then loop else AfterSending(loop, n, reply)
  }

  lemma RowTakesTurn(was: seq<Row>, replies: seq<Reply>, now: nat, n: nat, loop: Loop)
    requires n < |was| == |replies| && DistinctKeys(was) && Progress(was, replies, now, n, loop)
    ensures Progress(was, replies, now, n + 1, AfterRow(loop, n, replies[n]))
  {
    if loop.stopped || loop.rows[n].event.execution in loop.blocked {
      PassOver(was, replies, now, n, loop);
    } else {
      SendOne(was, replies, now, n, loop);
    }
  }

  /** The loop after `n` rows. */
  function Looped(was: seq<Row>, replies: seq<Reply>, n: nat): (loop: Loop)
    requires n <= |was| == |replies|
    ensures |loop.rows| == |was|
  {
    if n == 0 then Loop(was, false, {}, [], 0)
    else AfterRow(Looped(was, replies, n - 1), n - 1, replies[n - 1])
  }

  /** Row by row, the loop takes the protocol's turns. */
  lemma {:induction false} LoopFollowsTurns(was: seq<Row>, replies: seq<Reply>, now: nat, n: nat)
    requires n <= |was| == |replies| && DistinctKeys(was)
    ensures Progress(was, replies, now, n, Looped(was, replies, n))
  {
    if n > 0 {
      LoopFollowsTurns(was, replies, now, n - 1);
      RowTakesTurn(was, replies, now, n - 1, Looped(was, replies, n - 1));
    }
  }

  /** The loop, in place: it leaves the rows as the protocol's turns say and sends what they add. */
  method PublishRows(rows: array<Row>, replies: seq<Reply>, now: nat) returns (sent: seq<Event>, published: nat)
    requires |replies| == rows.Length && DistinctKeys(rows[..])
    modifies rows
    ensures forall i :: 0 <= i < rows.Length ==>
      Settles(Turns(old(rows[..]), replies, now, rows.Length), old(rows[i]), rows[i])
    ensures published == |Turns(old(rows[..]), replies, now, rows.Length).marked|
    ensures sent == Added(old(rows[..]), replies, now, rows.Length)
  {
    ghost var was := rows[..];
    var blocked: set<Uuid> := {};
    var stopped := false;
    sent, published := [], 0;
    for i := 0 to rows.Length
      invariant Loop(rows[..], stopped, blocked, sent, published) == Looped(was, replies, i)
    {
      if !stopped && rows[i].event.execution !in blocked {
        if Lands(replies[i]) {
          sent := sent + [rows[i].event];
        }
        if replies[i].Ok? {
          published := published + 1;
        } else {
          blocked, stopped := blocked + {rows[i].event.execution}, replies[i].Network?;
        }
        rows[i] := RowAfter(rows[i], replies[i]);
      }
    }
    LoopFollowsTurns(was, replies, now, rows.Length);
  }

  // ----------------------------------------------------- what the loop ensures

  /** Each row passed is published or its Execution is blocked. */
  lemma {:induction false} UnblockedIsMarked(rows: seq<Row>, replies: seq<Reply>, now: nat, n: nat, i: nat)
    requires n <= |rows| == |replies| && i < n && !Turns(rows, replies, now, n).stopped
    ensures var pub := Turns(rows, replies, now, n);
      KeyOf(rows[i].event) in pub.marked || rows[i].event.execution in pub.blocked
  {
    if i < n - 1 {
      UnblockedIsMarked(rows, replies, now, n - 1, i);
    }
  }

  lemma MarkedLast(rows: seq<Row>, replies: seq<Reply>, now: nat, n: nat, j: nat)
    requires n < |rows| == |replies| && DistinctKeys(rows) && j < |rows|
    requires KeyOf(rows[j].event) in Turns(rows, replies, now, n + 1).marked
    requires KeyOf(rows[j].event) !in Turns(rows, replies, now, n).marked
    ensures j == n && !Turns(rows, replies, now, n).stopped
    ensures rows[j].event.execution !in Turns(rows, replies, now, n).blocked
  {
    assert KeyOf(rows[j].event) == KeyOf(rows[n].event);
  }

  lemma {:induction false} MarkedWhenActive(rows: seq<Row>, replies: seq<Reply>, now: nat, n: nat, j: nat)
    requires n <= |rows| == |replies| && DistinctKeys(rows) && j < |rows|
    requires KeyOf(rows[j].event) in Turns(rows, replies, now, n).marked
    ensures j < n && Active(rows, replies, now, j)
  {
    assert n > 0;
    if KeyOf(rows[j].event) in Turns(rows, replies, now, n - 1).marked {
      MarkedWhenActive(rows, replies, now, n - 1, j);
    } else {
      MarkedLast(rows, replies, now, n - 1, j);
    }
  }

  lemma TurnKeepsMarked(pub: Publisher, outcome: Outcome)
    requires pub.next < |pub.batch|
    ensures pub.marked <= Turn(pub, outcome).marked
  {
  }

  lemma {:induction false} MarksStay(rows: seq<Row>, replies: seq<Reply>, now: nat, m: nat, n: nat)
    requires m <= n <= |rows| == |replies|
    ensures Turns(rows, replies, now, m).marked <= Turns(rows, replies, now, n).marked
  {
    if m < n {
      MarksStay(rows, replies, now, m, n - 1);
      var before := Turns(rows, replies, now, n - 1);
      if !before.stopped {
        TurnKeepsMarked(before, OutcomeOf(rows[n - 1], replies[n - 1]));
      }
    }
  }

  /** A row is published only if every earlier row of its Execution in the batch is, too. */
  lemma NoRowOvertakes(rows: seq<Row>, replies: seq<Reply>, now: nat, n: nat, i: nat, j: nat)
    requires n <= |rows| == |replies| && DistinctKeys(rows) && i < j < |rows|
    requires rows[i].event.execution == rows[j].event.execution
    requires KeyOf(rows[j].event) in Turns(rows, replies, now, n).marked
    ensures KeyOf(rows[i].event) in Turns(rows, replies, now, n).marked
  {
    MarkedWhenActive(rows, replies, now, n, j);
    UnblockedIsMarked(rows, replies, now, j, i);
    MarksStay(rows, replies, now, j, n);
  }
}
