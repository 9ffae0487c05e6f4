/** The Redis section of `validate_evidence`: an ordered dict of the messages seen, compared with the
    durable events of the Execution. */
module Evidence {
  import opened Events
  import opened Protocol
  import opened Invariant
  import opened Delivery
  import opened Guarantees
  import opened AgentConsumer

  // ------------------------------------------------------------- specification

  /** The first `n` messages with later copies of an `event_id` dropped. */
  function DedupTo(messages: seq<Event>, n: nat): seq<Event>
    requires n <= |messages|
  {
    if n == 0 then []
    else
      var earlier := DedupTo(messages, n - 1);
      if HasId(earlier, messages[n - 1].id) then earlier else earlier + [messages[n - 1]]
  }

  function Dedup(messages: seq<Event>): seq<Event> {
    DedupTo(messages, |messages|)
  }

  predicate AgreeTo(messages: seq<Event>, n: nat)
    requires n <= |messages|
  {
    forall i, j :: 0 <= i < j < n && messages[i].id == messages[j].id ==> messages[i] == messages[j]
  }

  predicate CopiesAgree(messages: seq<Event>) {
    AgreeTo(messages, |messages|)
  }

  predicate Numbered(events: seq<Event>) {
    forall i :: 0 <= i < |events| ==> events[i].sequence == i + 1
  }

  /** The durable events are numbered 1 to n and the Stream repeats them: in order, completely, and
      with nothing added but identical copies. */
  predicate Conforms(envelopes: seq<Event>, messages: seq<Event>) {
    Numbered(envelopes) && CopiesAgree(messages) && Dedup(messages) == envelopes
  }

  // -------------------------------------------------------------------- dicts

  function Ids(events: seq<Event>): (ids: seq<Uuid>)
    ensures |ids| == |events| && forall i :: 0 <= i < |ids| ==> ids[i] == events[i].id
  {
    seq(|events|, i requires 0 <= i < |events| => events[i].id)
  }

  /** `{e["event_id"]: e for e in events}`. */
  function ById(events: seq<Event>): map<Uuid, Event> {
    if |events| == 0 then map[]
    else ById(events[..|events| - 1])[events[|events| - 1].id := events[|events| - 1]]
  }

  predicate DistinctIds(events: seq<Event>) {
    forall i, j :: 0 <= i < j < |events| ==> events[i].id != events[j].id
  }

  lemma {:induction false} DedupDistinct(messages: seq<Event>, n: nat)
    requires n <= |messages|
    ensures DistinctIds(DedupTo(messages, n))
  {
    if n > 0 {
      DedupDistinct(messages, n - 1);
    }
  }

  lemma {:induction false} DedupCovers(messages: seq<Event>, n: nat, i: nat)
    requires i < n <= |messages|
    ensures HasId(DedupTo(messages, n), messages[i].id)
  {
    var earlier := DedupTo(messages, n - 1);
    if i < n - 1 {
      DedupCovers(messages, n - 1, i);
      var k :| 0 <= k < |earlier| && earlier[k].id == messages[i].id;
      assert DedupTo(messages, n)[k] == earlier[k];
    } else if !HasId(earlier, messages[i].id) {
      assert DedupTo(messages, n)[|earlier|] == messages[i];
    }
  }

  lemma {:induction false} DedupFrom(messages: seq<Event>, n: nat, k: nat) returns (i: nat)
    requires n <= |messages| && k < |DedupTo(messages, n)|
    ensures i < n && DedupTo(messages, n)[k] == messages[i]
  {
    if k < |DedupTo(messages, n - 1)| {
      i := DedupFrom(messages, n - 1, k);
    } else {
      i := n - 1;
    }
  }

  lemma {:induction false} ByIdLookup(events: seq<Event>, i: nat)
    requires DistinctIds(events) && i < |events|
    ensures events[i].id in ById(events) && ById(events)[events[i].id] == events[i]
    decreases |events|
  {
    if i < |events| - 1 {
      ByIdLookup(events[..|events| - 1], i);
    }
  }

  lemma {:induction false} ByIdKeys(events: seq<Event>, id: Uuid)
    ensures id in ById(events) <==> HasId(events, id)
    ensures id in ById(events) ==> ById(events)[id] in events && ById(events)[id].id == id
    decreases |events|
  {
    if |events| > 0 {
      var init := events[..|events| - 1];
      ByIdKeys(init, id);
      assert events == init + [events[|events| - 1]];
      if HasId(init, id) {
        var k :| 0 <= k < |init| && init[k].id == id;
        assert events[k].id == id;
      }
    }
  }

  // --------------------------------------------------------------- the checker

  /** A message whose id is known must repeat the stored one. */
  lemma CopyOrConflict(messages: seq<Event>, n: nat)
    requires n < |messages| && AgreeTo(messages, n) && HasId(DedupTo(messages, n), messages[n].id)
    ensures var d := DedupTo(messages, n);
      messages[n].id in ById(d) && (ById(d)[messages[n].id] == messages[n] <==> AgreeTo(messages, n + 1))
  {
    var d := DedupTo(messages, n);
    ByIdKeys(d, messages[n].id);
    var k :| 0 <= k < |d| && d[k] == ById(d)[messages[n].id];
    var j := DedupFrom(messages, n, k);
    assert messages[j].id == messages[n].id;
  }

  lemma NewAgrees(messages: seq<Event>, n: nat)
    requires n < |messages| && AgreeTo(messages, n) && !HasId(DedupTo(messages, n), messages[n].id)
    ensures AgreeTo(messages, n + 1)
  {
    forall i | 0 <= i < n ensures messages[i].id != messages[n].id {
      DedupCovers(messages, n, i);
    }
  }

  lemma ByIdAppend(d: seq<Event>, e: Event)
    ensures ById(d + [e]) == ById(d)[e.id := e] && Ids(d + [e]) == Ids(d) + [e.id]
  {
    assert (d + [e])[..|d|] == d;
  }

  /** Storing a known event again changes neither the dict nor its order. */
  lemma StoreAgain(d: seq<Event>, e: Event)
    requires e.id in ById(d) && ById(d)[e.id] == e
    ensures ById(d)[e.id := e] == ById(d)
  {
  }

  /** The values of the ordered dict, in order. */
  lemma ValuesInOrder(d: seq<Event>, i: nat)
    requires DistinctIds(d) && i < |d|
    ensures Ids(d)[i] in ById(d) && ById(d)[Ids(d)[i]] == d[i]
  {
    ByIdLookup(d, i);
  }

  /** Same dict, and both numbered in their own order: the same sequence. */
  lemma SameDictSameOrder(d: seq<Event>, envelopes: seq<Event>)
    requires DistinctIds(d) && Numbered(envelopes) && Numbered(d) && |d| == |envelopes| && ById(d) == ById(envelopes)
    ensures d == envelopes
  {
    forall i | 0 <= i < |d| ensures d[i] == envelopes[i] {
      ByIdLookup(d, i);
      ByIdKeys(envelopes, d[i].id);
      var k :| 0 <= k < |envelopes| && envelopes[k] == d[i];
      assert k == i;
    }
  }

  method CheckNumbered(events: seq<Event>) returns (ok: bool)
    ensures ok <==> Numbered(events)
  {
    ok := true;
    for i := 0 to |events|
      invariant ok <==> forall j :: 0 <= j < i ==> events[j].sequence == j + 1
    {
      ok := ok && events[i].sequence == i + 1;
    }
  }

  /** Fill the dict message by message; a copy that differs fails at once. */
  method Collect(messages: seq<Event>) returns (ok: bool, published: map<Uuid, Event>, order: seq<Uuid>)
    ensures ok <==> CopiesAgree(messages)
    ensures ok ==> published == ById(Dedup(messages)) && order == Ids(Dedup(messages))
  {
    ok, published, order := true, map[], [];
    for i := 0 to |messages|
      invariant AgreeTo(messages, i)
      invariant published == ById(DedupTo(messages, i)) && order == Ids(DedupTo(messages, i))
    {
      var event := messages[i];
      ByIdKeys(DedupTo(messages, i), event.id);
      if event.id in published {
        CopyOrConflict(messages, i);
        if published[event.id] != event {
          return false, published, order;
        }
        StoreAgain(DedupTo(messages, i), event);
      } else {
        NewAgrees(messages, i);
        ByIdAppend(DedupTo(messages, i), event);
        order := order + [event.id];
      }
      published := published[event.id := event];
    }
  }

  method CheckOrder(published: map<Uuid, Event>, order: seq<Uuid>, ghost d: seq<Event>) returns (ok: bool)
    requires DistinctIds(d) && published == ById(d) && order == Ids(d)
    ensures ok <==> Numbered(d)
  {
    ok := true;
    for i := 0 to |order|
      invariant ok <==> forall j :: 0 <= j < i ==> d[j].sequence == j + 1
    {
      ValuesInOrder(d, i);
      ok := ok && published[order[i]].sequence == i + 1;
    }
  }

  /** The assertions of the Redis section, in their order; `accepted` is whether all of them hold. */
  method CheckStream(envelopes: seq<Event>, messages: seq<Event>) returns (accepted: bool)
    ensures accepted <==> Conforms(envelopes, messages)
  {
    accepted := CheckNumbered(envelopes);
    if !accepted {
      return;
    }
    var published, order;
    accepted, published, order := Collect(messages);
    if !accepted {
      return;
    }
    ghost var d := Dedup(messages);
    DedupDistinct(messages, |messages|);
    if published != ById(envelopes) || |order| != |envelopes| {
      return false;
    }
    accepted := CheckOrder(published, order, d);
    if accepted {
      SameDictSameOrder(d, envelopes);
    }
  }

  // ------------------------------------------- complete: what the protocol sends

  /** The messages of one Execution, as the probe selects them from what XRANGE returns. */
  function MessagesOf(stream: seq<Event>, x: Uuid): seq<Event> {
    if |stream| == 0 then []
    else
      var e := stream[|stream| - 1];
      MessagesOf(stream[..|stream| - 1], x) + (if e.execution == x then [e] else [])
  }

  lemma {:induction false} MessageFrom(stream: seq<Event>, x: Uuid, k: nat)
    requires k < |MessagesOf(stream, x)|
    ensures MessagesOf(stream, x)[k] in stream
    decreases |stream|
  {
    var init := stream[..|stream| - 1];
    if k < |MessagesOf(init, x)| {
      MessageFrom(init, x, k);
    }
  }

  lemma {:induction false} DedupPrefix(messages: seq<Event>, e: Event, n: nat)
    requires n <= |messages|
    ensures DedupTo(messages + [e], n) == DedupTo(messages, n)
  {
    if n > 0 {
      DedupPrefix(messages, e, n - 1);
    }
  }

  lemma {:induction false} FirstsIsDedup(stream: seq<Event>, x: Uuid)
    ensures Firsts(stream, x) == Dedup(MessagesOf(stream, x))
    decreases |stream|
  {
    if |stream| > 0 {
      var init, e := stream[..|stream| - 1], stream[|stream| - 1];
      FirstsIsDedup(init, x);
      if e.execution == x {
        DedupPrefix(MessagesOf(init, x), e, |MessagesOf(init, x)|);
      } else {
        assert MessagesOf(stream, x) == MessagesOf(init, x);
      }
    }
  }

  lemma {:induction false} FirstFrom(stream: seq<Event>, x: Uuid, k: nat) returns (i: nat)
    requires k < |Firsts(stream, x)|
    ensures i < |stream| && stream[i] == Firsts(stream, x)[k] && stream[i].execution == x
    decreases |stream|
  {
    var init := stream[..|stream| - 1];
    if k < |Firsts(init, x)| {
      i := FirstFrom(init, x, k);
    } else {
      i := |stream| - 1;
    }
  }

  lemma {:induction false} FirstsGrow(some: seq<Event>, stream: seq<Event>, x: Uuid)
    requires some <= stream
    ensures Firsts(some, x) <= Firsts(stream, x)
    decreases |stream|
  {
    if |some| < |stream| {
      FirstsGrow(some, stream[..|stream| - 1], x);
    } else {
      assert some == stream;
    }
  }

  lemma RepeatsOrContinues(issued: map<Uuid, Key>, counters: map<Uuid, nat>, history: History, e: Event,
                           earlier: seq<Event>)
    requires HistoryOk(issued, counters, history) && Durable(history, e) && earlier <= Of(history, e.execution)
    requires HasId(earlier, e.id) || earlier + [e] <= Of(history, e.execution)
    ensures e.sequence <= |earlier| + 1
  {
    var h, n := Of(history, e.execution), |earlier|;
    assert earlier == h[..n];
    IdInPrefix(issued, counters, history, e, n);
    if !HasId(earlier, e.id) {
      assert h[n] == (earlier + [e])[n];
      assert Fits(issued, h[n], e.execution, n + 1);
    }
  }

  lemma FirstsNext(init: seq<Event>, e: Event, stream: seq<Event>)
    requires init + [e] <= stream
    ensures var x, earlier := e.execution, Firsts(init, e.execution);
      earlier <= Firsts(stream, x) && (HasId(earlier, e.id) || earlier + [e] <= Firsts(stream, x))
  {
    FirstsGrow(init + [e], stream, e.execution);
    FirstsMore(init, e);
  }

  /** Where the first occurrences are the whole history, a message continues or repeats what came before. */
  lemma NextOfComplete(issued: map<Uuid, Key>, counters: map<Uuid, nat>, history: History, stream: seq<Event>, n: nat)
    requires HistoryOk(issued, counters, history) && AllDurable(history, stream) && n < |stream|
    requires Firsts(stream, stream[n].execution) == Of(history, stream[n].execution)
    ensures Firsts(stream[..n], stream[n].execution) <= Of(history, stream[n].execution)
    ensures stream[n].sequence <= |Firsts(stream[..n], stream[n].execution)| + 1
  {
    assert stream[..n] + [stream[n]] == stream[..n + 1];
    FirstsNext(stream[..n], stream[n], stream);
    RepeatsOrContinues(issued, counters, history, stream[n], Firsts(stream[..n], stream[n].execution));
  }

  lemma CompleteIsOrdered(issued: map<Uuid, Key>, counters: map<Uuid, nat>, history: History, stream: seq<Event>,
                          x: Uuid)
    requires HistoryOk(issued, counters, history) && AllDurable(history, stream)
    requires Firsts(stream, x) == Of(history, x)
    ensures OrderedOf(stream, x)
  {
    forall n {:trigger InOrder(stream, n)} | 0 <= n < |stream| && stream[n].execution == x
      ensures InOrder(stream, n)
    {
      NextOfComplete(issued, counters, history, stream, n);
      var k := stream[n].sequence - 2;
      if k >= 0 {
        var j := FirstFrom(stream[..n], x, k);
        assert Fits(issued, Of(history, x)[k], x, k + 1);
        assert stream[j] == stream[..n][j];
      }
    }
  }

  /** First occurrences are the whole history exactly when the last event is there and no message comes
      before its predecessor. */
  lemma CompleteIff(issued: map<Uuid, Key>, counters: map<Uuid, nat>, history: History, stream: seq<Event>, x: Uuid)
    requires HistoryOk(issued, counters, history) && AllDurable(history, stream)
    ensures Firsts(stream, x) == Of(history, x)
       <==> Seen(stream, |stream|, x, |Of(history, x)|) && OrderedOf(stream, x)
  {
    var h := Of(history, x);
    if OrderedOf(stream, x) {
      FirstsPrefix(issued, counters, history, stream, x);
    }
    if Firsts(stream, x) == h {
      CompleteIsOrdered(issued, counters, history, stream, x);
      if |h| > 0 {
        var j := FirstFrom(stream, x, |h| - 1);
        assert Fits(issued, h[|h| - 1], x, |h|);
      }
    }
  }

  /** What XRANGE returns: the messages that are not trimmed. */
  function Retained(s: State): seq<Event> {
    if s.trimmed <= |s.stream| then s.stream[s.trimmed..] else []
  }

  lemma RetainedDurable(s: State)
    requires Inv(s)
    ensures AllDurable(s.history, Retained(s))
  {
    var rest := Retained(s);
    forall i | 0 <= i < |rest| ensures Durable(s.history, rest[i]) {
      assert rest[i] == s.stream[s.trimmed + i];
    }
  }

  lemma MessagesAgree(s: State, x: Uuid)
    requires Inv(s)
    ensures CopiesAgree(MessagesOf(Retained(s), x))
  {
    var rest := Retained(s);
    var messages := MessagesOf(rest, x);
    RetainedDurable(s);
    forall i, j | 0 <= i < j < |messages| && messages[i].id == messages[j].id ensures messages[i] == messages[j] {
      MessageFrom(rest, x, i);
      MessageFrom(rest, x, j);
      IdIdentifies(s.issued, s.counters, s.history, messages[i], messages[j]);
    }
  }

  lemma HistoryNumbered(s: State, x: Uuid)
    requires Inv(s)
    ensures Numbered(Of(s.history, x))
  {
    forall i | 0 <= i < |Of(s.history, x)| ensures Of(s.history, x)[i].sequence == i + 1 {
      assert Fits(s.issued, Of(s.history, x)[i], x, i + 1);
    }
  }

  /** In a reachable state, whatever is trimmed, the check passes exactly when the last durable event is
      still on the Stream and no message of the Execution there lacks its predecessor before it. */
  lemma DecidesRetained(s: State, x: Uuid)
    requires Reachable(s)
    ensures Conforms(Of(s.history, x), MessagesOf(Retained(s), x))
       <==> Seen(Retained(s), |Retained(s)|, x, |Of(s.history, x)|) && OrderedOf(Retained(s), x)
  {
    ReachableInv(s);
    RetainedDurable(s);
    FirstsIsDedup(Retained(s), x);
    MessagesAgree(s, x);
    HistoryNumbered(s, x);
    CompleteIff(s.issued, s.counters, s.history, Retained(s), x);
  }

  /** No message of `x` is trimmed. */
  predicate AllRetained(s: State, x: Uuid) {
    forall i :: 0 <= i < s.trimmed && i < |s.stream| ==> s.stream[i].execution != x
  }

  lemma SeenLater(stream: seq<Event>, d: nat, x: Uuid, upTo: nat, n: int)
    requires d <= upTo <= |stream| && forall i :: 0 <= i < d ==> stream[i].execution != x
    ensures Seen(stream[d..], upTo - d, x, n) <==> Seen(stream, upTo, x, n)
  {
    var rest := stream[d..];
    if n != 0 && Seen(stream, upTo, x, n) {
      var j :| 0 <= j < upTo && stream[j].execution == x && stream[j].sequence == n;
      assert rest[j - d] == stream[j];
    }
    if n != 0 && Seen(rest, upTo - d, x, n) {
      var j :| 0 <= j < upTo - d && rest[j].execution == x && rest[j].sequence == n;
      assert rest[j] == stream[d + j];
    }
  }

  lemma RetainedInOrder(stream: seq<Event>, d: nat, x: Uuid)
    requires OrderedOf(stream, x) && d <= |stream| && forall i :: 0 <= i < d ==> stream[i].execution != x
    ensures OrderedOf(stream[d..], x)
  {
    var rest := stream[d..];
    forall i {:trigger InOrder(rest, i)} | 0 <= i < |rest| && rest[i].execution == x ensures InOrder(rest, i) {
      assert InOrder(stream, d + i);
      SeenLater(stream, d, x, d + i, rest[i].sequence - 1);
    }
  }

  /** While no message of the Execution is trimmed, the check decides one thing: whether every durable
      event is on the Stream. */
  lemma DecidesCompleteness(s: State, x: Uuid)
    requires Reachable(s) && AllRetained(s, x)
    ensures Conforms(Of(s.history, x), MessagesOf(Retained(s), x))
       <==> Seen(s.stream, |s.stream|, x, |Of(s.history, x)|)
  {
    ReachableInv(s);
    DecidesRetained(s, x);
    RetainedInOrder(s.stream, s.trimmed, x);
    SeenLater(s.stream, s.trimmed, x, |s.stream|, |Of(s.history, x)|);
  }

  /** The check passes in every reachable state in which the Execution has no PENDING row left and none of
      its messages is trimmed. */
  lemma AcceptsEveryFullyPublishedStream(s: State, x: Uuid)
    requires Reachable(s) && AllRetained(s, x) && forall n: nat :: !IsPending(s.outbox, Key(x, n))
    ensures Conforms(Of(s.history, x), MessagesOf(Retained(s), x))
  {
    ReachableInv(s);
    DecidesCompleteness(s, x);
    assert !IsPending(s.outbox, Key(x, |Of(s.history, x)|));
  }

  // ------------------------------------------- sound: what a consumer makes of it

  /** An Agent that starts empty and is handed the messages one by one. */
  function FeedTo(messages: seq<Event>, n: nat): AgentDb
    requires n <= |messages|
  {
    if n == 0 then EMPTY_DB else Applying(FeedTo(messages, n - 1), messages[n - 1])
  }

  lemma {:induction false} DedupGrows(messages: seq<Event>, n: nat, m: nat)
    requires n <= m <= |messages|
    ensures DedupTo(messages, n) <= DedupTo(messages, m)
  {
    if n < m {
      DedupGrows(messages, n, m - 1);
    }
  }

  /** Where an accepted stream stands after `n` messages. */
  ghost predicate FedTo(messages: seq<Event>, x: Uuid, n: nat)
    requires n <= |messages|
  {
    var d := DedupTo(messages, n);
    FeedTo(messages, n).consumed == Rows(d) && LastSequence(FeedTo(messages, n), x) == |d|
  }

  /** The next message is a copy of an applied event, or exactly the next one. */
  lemma NextFits(envelopes: seq<Event>, messages: seq<Event>, n: nat)
    requires Conforms(envelopes, messages) && n < |messages|
    ensures var d := DedupTo(messages, n);
      if HasId(d, messages[n].id) then messages[n].sequence <= |d| else messages[n].sequence == |d| + 1
  {
    var d := DedupTo(messages, n);
    DedupGrows(messages, n, |messages|);
    DedupGrows(messages, n + 1, |messages|);
    if HasId(d, messages[n].id) {
      var k :| 0 <= k < |d| && d[k].id == messages[n].id;
      var j := DedupFrom(messages, n, k);
      assert messages[j] == messages[n];
      assert envelopes[k] == messages[n];
    } else {
      assert envelopes[|d|] == messages[n];
    }
  }

  lemma RecordedInRows(d: seq<Event>, db: AgentDb, id: Uuid)
    requires db.consumed == Rows(d)
    ensures Recorded(db, id) <==> HasId(d, id)
  {
    if Recorded(db, id) {
      var i :| 0 <= i < |db.consumed| && db.consumed[i].eventId == id;
      assert d[i].id == id;
    }
    if HasId(d, id) {
      var i :| 0 <= i < |d| && d[i].id == id;
      assert db.consumed[i].eventId == id;
    }
  }

  lemma {:induction false} FeedFollows(envelopes: seq<Event>, messages: seq<Event>, x: Uuid, n: nat)
    requires Conforms(envelopes, messages) && n <= |messages|
    requires forall i :: 0 <= i < |messages| ==> messages[i].execution == x
    ensures FedTo(messages, x, n)
  {
    if n > 0 {
      FeedFollows(envelopes, messages, x, n - 1);
      NextFits(envelopes, messages, n - 1);
      var d := DedupTo(messages, n - 1);
      RecordedInRows(d, FeedTo(messages, n - 1), messages[n - 1].id);
      if !HasId(d, messages[n - 1].id) {
        assert Rows(d + [messages[n - 1]]) == Rows(d) + [RowOf(messages[n - 1])];
      }
    }
  }

  /** An Agent fed any stream the check accepts ends with exactly the durable events, and no message on
      the way is behind a gap. */
  lemma {:induction false} AcceptedStreamDelivers(envelopes: seq<Event>, messages: seq<Event>, x: Uuid)
    requires Conforms(envelopes, messages)
    requires forall i :: 0 <= i < |messages| ==> messages[i].execution == x
    ensures FeedTo(messages, |messages|).consumed == Rows(envelopes)
    ensures forall n :: 0 <= n < |messages| ==>
      messages[n].sequence <= LastSequence(FeedTo(messages, n), messages[n].execution) + 1
  {
    FeedFollows(envelopes, messages, x, |messages|);
    forall n | 0 <= n < |messages|
      ensures messages[n].sequence <= LastSequence(FeedTo(messages, n), messages[n].execution) + 1
    {
      FeedFollows(envelopes, messages, x, n);
      NextFits(envelopes, messages, n);
    }
  }
}
