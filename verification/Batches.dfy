/** `publish_batch` as it is called: both queries with their order and limit, one message after the
    other, one commit. Undisturbed calls publish everything that is PENDING. */
module Batches {
  import opened Events
  import opened Protocol
  import opened Recovery

  /** What the two queries of one call return. */
  datatype Batch = Batch(now: nat, heads: seq<Key>, followers: seq<Key>) {
    function Keys(): seq<Key> {
      heads + followers
    }
  }

  function CreatedAt(outbox: map<Key, OutboxRow>, k: Key): nat {
    if k in outbox then outbox[k].event.occurredAt else 0
  }

  predicate Eligible(s: State, p: nat, now: nat, k: Key) {
    IsHead(s.outbox, now, k) && !LockedByOther(s.publishers, p, k)
  }

  /** ORDER BY created_at LIMIT `limit` over the eligible rows. */
  ghost predicate IsHeadBatch(s: State, p: nat, now: nat, limit: nat, heads: seq<Key>) {
    && CanSelectHeads(s, p, now, heads) && |heads| <= limit
    && (forall i, j :: 0 <= i < j < |heads| ==> CreatedAt(s.outbox, heads[i]) <= CreatedAt(s.outbox, heads[j]))
    && (forall k :: Eligible(s, p, now, k) && k !in heads ==>
          |heads| == limit && forall i :: 0 <= i < |heads| ==> CreatedAt(s.outbox, heads[i]) <= CreatedAt(s.outbox, k))
  }

  /** The follower query fills the batch up to `limit`, in order, as far as there are followers. */
  ghost predicate IsFullFollowers(s: State, p: nat, limit: nat, followers: seq<Key>)
    requires p in s.publishers
  {
    && IsFollowerBatch(s, p, followers) && |s.publishers[p].heads| + |followers| <= limit
    && (forall k :: IsFollower(s, p, k) && k !in followers ==> |s.publishers[p].heads| + |followers| == limit)
  }

  /** `b` is what a call at `b.now` with batch size `limit` selects. */
  ghost predicate IsBatch(s: State, limit: nat, b: Batch) {
    && s.publishers == map[] && IsHeadBatch(s, 0, b.now, limit, b.heads)
    && IsFullFollowers(HeadsSelected(s, 0, b.now, b.heads), 0, limit, b.followers)
  }

  // ------------------------------------------------------------------ the call

  function MarkedTo(keys: seq<Key>, n: nat): set<Key>
    requires n <= |keys|
  {
    if n == 0 then {} else MarkedTo(keys, n - 1) + {keys[n - 1]}
  }

  function SentTo(outbox: map<Key, OutboxRow>, keys: seq<Key>, n: nat): seq<Event>
    requires n <= |keys| && forall i :: 0 <= i < n ==> keys[i] in outbox
  {
    if n == 0 then [] else SentTo(outbox, keys, n - 1) + [outbox[keys[n - 1]].event]
  }

  predicate Known(outbox: map<Key, OutboxRow>, keys: seq<Key>) {
    forall i :: 0 <= i < |keys| ==> keys[i] in outbox
  }

  /** The open transaction after `n` messages. */
  function Sending(s: State, b: Batch, n: nat): State
    requires n <= |b.Keys()| && Known(s.outbox, b.Keys())
  {
    s.(publishers := map[0 := Publisher(b.now, b.heads, b.Keys(), true, n, MarkedTo(b.Keys(), n), map[], {}, false)],
       stream := s.stream + SentTo(s.outbox, b.Keys(), n))
  }

  /** The state after the call: its rows are published and its messages on the Stream, in batch order. */
  function Called(s: State, b: Batch): State
    requires Known(s.outbox, b.Keys())
  {
    s.(outbox := map k | k in s.outbox :: if k in b.Keys() then s.outbox[k].(status := Published) else s.outbox[k],
       stream := s.stream + SentTo(s.outbox, b.Keys(), |b.Keys()|))
  }

  function Sends(n: nat): (steps: seq<Step>)
    ensures |steps| == n && forall i :: 0 <= i < n ==> steps[i] == PublishNext(0, Sent)
  {
    seq(n, i => PublishNext(0, Sent))
  }

  /** The steps of a call in which every XADD succeeds. */
  function CallSteps(b: Batch): seq<Step> {
    [SelectHeads(0, b.now, b.heads)] + [SelectFollowers(0, b.followers)] + Sends(|b.Keys()|) + [CommitPublisher(0)]
  }

  lemma SentTurn(b: Batch, n: nat)
    requires n < |b.Keys()|
    ensures Turn(Publisher(b.now, b.heads, b.Keys(), true, n, MarkedTo(b.Keys(), n), map[], {}, false), Sent)
         == Publisher(b.now, b.heads, b.Keys(), true, n + 1, MarkedTo(b.Keys(), n + 1), map[], {}, false)
  {
  }

  lemma SentNext(s: State, b: Batch, n: nat)
    requires n < |b.Keys()| && Known(s.outbox, b.Keys())
    ensures CanPublish(Sending(s, b, n), 0) && PublishedNext(Sending(s, b, n), 0, Sent) == Sending(s, b, n + 1)
  {
    var event := s.outbox[b.Keys()[n]].event;
    SentTurn(b, n);
    assert s.stream + SentTo(s.outbox, b.Keys(), n) + [event] == s.stream + SentTo(s.outbox, b.Keys(), n + 1);
    assert PublishedNext(Sending(s, b, n), 0, Sent).publishers == Sending(s, b, n + 1).publishers;
  }

  lemma SendStep(s: State, b: Batch, n: nat)
    requires n < |b.Keys()| && Known(s.outbox, b.Keys())
    ensures Leads(Sending(s, b, n), [PublishNext(0, Sent)], Sending(s, b, n + 1))
  {
    SentNext(s, b, n);
    One(Sending(s, b, n), PublishNext(0, Sent));
  }

  lemma {:induction false} SendSteps(s: State, b: Batch, n: nat)
    requires n <= |b.Keys()| && Known(s.outbox, b.Keys())
    ensures Leads(Sending(s, b, 0), Sends(n), Sending(s, b, n))
  {
    if n > 0 {
      SendSteps(s, b, n - 1);
      SendStep(s, b, n - 1);
      Join(Sending(s, b, 0), Sends(n - 1), Sending(s, b, n - 1), [PublishNext(0, Sent)], Sending(s, b, n));
      assert Sends(n) == Sends(n - 1) + [PublishNext(0, Sent)];
    }
  }

  lemma {:induction false} MarkedIs(keys: seq<Key>, n: nat, k: Key)
    requires n <= |keys|
    ensures k in MarkedTo(keys, n) <==> Among(keys, n, k)
  {
    if n > 0 {
      MarkedIs(keys, n - 1, k);
    }
  }

  lemma CommitStep(s: State, b: Batch)
    requires s.publishers == map[] && Known(s.outbox, b.Keys())
    ensures Leads(Sending(s, b, |b.Keys()|), [CommitPublisher(0)], Called(s, b))
  {
    var sent := Sending(s, b, |b.Keys()|);
    forall k | k in s.outbox ensures k in sent.publishers[0].marked <==> k in b.Keys() {
      MarkedIs(b.Keys(), |b.Keys()|, k);
    }
    assert BatchCommitted(sent, 0).outbox == Called(s, b).outbox;
    assert sent.publishers - {0} == map[];
    One(sent, CommitPublisher(0));
  }

  lemma SelectSteps(s: State, limit: nat, b: Batch)
    requires IsBatch(s, limit, b)
    ensures Known(s.outbox, b.Keys())
    ensures Leads(s, [SelectHeads(0, b.now, b.heads)], HeadsSelected(s, 0, b.now, b.heads))
    ensures Leads(HeadsSelected(s, 0, b.now, b.heads), [SelectFollowers(0, b.followers)], Sending(s, b, 0))
  {
    var headed := HeadsSelected(s, 0, b.now, b.heads);
    One(s, SelectHeads(0, b.now, b.heads));
    One(headed, SelectFollowers(0, b.followers));
    forall i | 0 <= i < |b.Keys()| ensures b.Keys()[i] in s.outbox {
      if i >= |b.heads| {
        assert IsFollower(headed, 0, b.followers[i - |b.heads|]);
      }
    }
    assert s.stream + [] == s.stream;
    assert FollowersSelected(headed, 0, b.followers).publishers == Sending(s, b, 0).publishers;
  }

  /** A call is a run of the step system. */
  lemma CallIsSteps(s: State, limit: nat, b: Batch)
    requires IsBatch(s, limit, b)
    ensures Known(s.outbox, b.Keys()) && Leads(s, CallSteps(b), Called(s, b))
  {
    SelectSteps(s, limit, b);
    var headed, n := HeadsSelected(s, 0, b.now, b.heads), |b.Keys()|;
    SendSteps(s, b, n);
    CommitStep(s, b);
    var first, second := [SelectHeads(0, b.now, b.heads)], [SelectFollowers(0, b.followers)];
    Join(s, first, headed, second, Sending(s, b, 0));
    Join(s, first + second, Sending(s, b, 0), Sends(n), Sending(s, b, n));
    Join(s, first + second + Sends(n), Sending(s, b, n), [CommitPublisher(0)], Called(s, b));
  }

  // ------------------------------------------------- every query has a result

  lemma {:induction false} Earliest(outbox: map<Key, OutboxRow>, keys: set<Key>) returns (first: Key)
    requires keys != {}
    ensures first in keys && forall k :: k in keys ==> CreatedAt(outbox, first) <= CreatedAt(outbox, k)
    decreases |keys|
  {
    first :| first in keys;
    if keys != {first} {
      var other := Earliest(outbox, keys - {first});
      if CreatedAt(outbox, other) < CreatedAt(outbox, first) {
        first := other;
      }
    }
  }

  lemma {:induction false} ByCreation(outbox: map<Key, OutboxRow>, keys: set<Key>, limit: nat) returns (list: seq<Key>)
    ensures |list| <= limit && forall i :: 0 <= i < |list| ==> list[i] in keys
    ensures forall i, j :: 0 <= i < j < |list| ==> list[i] != list[j]
    ensures forall i, j :: 0 <= i < j < |list| ==> CreatedAt(outbox, list[i]) <= CreatedAt(outbox, list[j])
    ensures forall k :: k in keys && k !in list ==>
      |list| == limit && forall i :: 0 <= i < |list| ==> CreatedAt(outbox, list[i]) <= CreatedAt(outbox, k)
    decreases limit
  {
    if limit == 0 || keys == {} {
      list := [];
    } else {
      var first := Earliest(outbox, keys);
      var rest := ByCreation(outbox, keys - {first}, limit - 1);
      list := [first] + rest;
    }
  }

  lemma {:induction false} Least(keys: set<Key>) returns (first: Key)
    requires keys != {}
    ensures first in keys && forall k :: k in keys && k != first ==> Before(first, k)
    decreases |keys|
  {
    var some :| some in keys;
    first := some;
    if keys != {some} {
      var other := Least(keys - {some});
      first := if Before(other, some) then other else some;
      forall k | k in keys && k != first ensures Before(first, k) {
        assert k == some || k == other || Before(other, k);
      }
    }
  }

  lemma {:induction false} InSequence(keys: set<Key>, limit: nat) returns (list: seq<Key>)
    ensures |list| <= limit && forall i :: 0 <= i < |list| ==> list[i] in keys
    ensures forall i, j :: 0 <= i < j < |list| ==> Before(list[i], list[j])
    ensures forall k, i :: k in keys && 0 <= i < |list| && Before(k, list[i]) ==> Among(list, i, k)
    ensures forall k :: k in keys && k !in list ==> |list| == limit
    decreases limit
  {
    if limit == 0 || keys == {} {
      list := [];
    } else {
      var first := Least(keys);
      var rest := InSequence(keys - {first}, limit - 1);
      list := [first] + rest;
      forall k, i | k in keys && 0 <= i < |list| && Before(k, list[i]) ensures Among(list, i, k) {
        if k == first {
          assert list[0] == k;
        } else {
          assert Among(rest, i - 1, k);
          var j :| 0 <= j < i - 1 && j < |rest| && rest[j] == k;
          assert list[j + 1] == k;
        }
      }
    }
  }

  /** Whatever is in the table, a call selects some batch. */
  lemma SomeBatch(s: State, now: nat, limit: nat) returns (b: Batch)
    requires s.publishers == map[]
    ensures b.now == now && IsBatch(s, limit, b)
  {
    var heads := ByCreation(s.outbox, (set k | k in s.outbox && IsHead(s.outbox, now, k)), limit);
    var headed := HeadsSelected(s, 0, now, heads);
    var followers := InSequence((set k | k in s.outbox && IsFollower(headed, 0, k)), limit - |heads|);
    b := Batch(now, heads, followers);
  }

  // ------------------------------------------------------------ everything goes

  function PendingKeys(outbox: map<Key, OutboxRow>): set<Key> {
    set k | k in outbox && IsPending(outbox, k)
  }

  lemma {:induction false} FirstPending(outbox: map<Key, OutboxRow>, k: Key) returns (head: Key)
    requires IsPending(outbox, k)
    ensures IsPending(outbox, head)
    ensures forall e ::
      e in outbox && e.execution == head.execution && e.sequence < head.sequence ==> !IsPending(outbox, e)
    decreases k.sequence
  {
    if e :| e in outbox && e.execution == k.execution && e.sequence < k.sequence && IsPending(outbox, e) {
      head := FirstPending(outbox, e);
    } else {
      head := k;
    }
  }

  /** All rows are due. */
  predicate AllDue(outbox: map<Key, OutboxRow>, now: nat) {
    forall k :: k in outbox ==> outbox[k].availableAt <= now
  }

  lemma {:induction false} SomeTime(outbox: map<Key, OutboxRow>) returns (now: nat)
    ensures AllDue(outbox, now)
    decreases |outbox|
  {
    if outbox == map[] {
      now := 0;
    } else {
      var k :| k in outbox;
      var rest := outbox - {k};
      assert rest.Keys == outbox.Keys - {k};
      now := SomeTime(rest);
      now := Max(now, outbox[k].availableAt);
      forall j | j in outbox ensures outbox[j].availableAt <= now {
        assert j != k ==> j in rest;
      }
    }
  }

  /** When everything is due, a call publishes something as long as anything is PENDING. */
  lemma CallPublishes(s: State, limit: nat, b: Batch)
    requires IsBatch(s, limit, b) && limit > 0 && AllDue(s.outbox, b.now) && PendingKeys(s.outbox) != {}
    ensures Known(s.outbox, b.Keys()) && PendingKeys(Called(s, b).outbox) < PendingKeys(s.outbox)
  {
    CallIsSteps(s, limit, b);
    var k :| k in PendingKeys(s.outbox);
    var head := FirstPending(s.outbox, k);
    assert Eligible(s, 0, b.now, head);
    assert |b.heads| > 0;
    assert b.Keys()[0] == b.heads[0] && IsHead(s.outbox, b.now, b.heads[0]);
    assert b.heads[0] in PendingKeys(s.outbox) && b.heads[0] !in PendingKeys(Called(s, b).outbox);
  }

  /** One call after the other. */
  ghost predicate Calls(s: State, limit: nat, batches: seq<Batch>, t: State)
    decreases |batches|
  {
    if |batches| == 0 then s == t
    else IsBatch(s, limit, batches[0]) && Known(s.outbox, batches[0].Keys())
         && Calls(Called(s, batches[0]), limit, batches[1..], t)
  }

  function CallsSteps(batches: seq<Batch>): seq<Step>
    decreases |batches|
  {
    if |batches| == 0 then [] else CallSteps(batches[0]) + CallsSteps(batches[1..])
  }

  lemma {:induction false} CallsAreSteps(s: State, limit: nat, batches: seq<Batch>, t: State)
    requires Calls(s, limit, batches, t)
    ensures Leads(s, CallsSteps(batches), t)
    ensures t == s.(outbox := t.outbox, stream := t.stream)
    decreases |batches|
  {
    if |batches| > 0 {
      CallIsSteps(s, limit, batches[0]);
      CallsAreSteps(Called(s, batches[0]), limit, batches[1..], t);
      Join(s, CallSteps(batches[0]), Called(s, batches[0]), CallsSteps(batches[1..]), t);
    }
  }

  lemma CallShrinks(s: State, b: Batch)
    requires Known(s.outbox, b.Keys())
    ensures PendingKeys(Called(s, b).outbox) <= PendingKeys(s.outbox)
    ensures forall now :: AllDue(s.outbox, now) ==> AllDue(Called(s, b).outbox, now)
  {
  }

  /** With every row due and no other publisher, calls of any batch size publish everything: as many calls
      as there are PENDING rows are always enough, whatever the queries return first. */
  lemma {:induction false} CallsPublishAll(s: State, limit: nat, batches: seq<Batch>, t: State)
    requires Calls(s, limit, batches, t) && limit > 0 && |batches| >= |PendingKeys(s.outbox)|
    requires forall i :: 0 <= i < |batches| ==> AllDue(s.outbox, batches[i].now)
    ensures forall k :: !IsPending(t.outbox, k)
    decreases |batches|
  {
    if |batches| == 0 {
      forall k ensures !IsPending(t.outbox, k) {
        assert k !in PendingKeys(t.outbox);
      }
    } else {
      var b := batches[0];
      var after := Called(s, b);
      CallShrinks(s, b);
      if PendingKeys(s.outbox) == {} {
        assert PendingKeys(after.outbox) == {};
      } else {
        CallPublishes(s, limit, b);
        Fewer(PendingKeys(after.outbox), PendingKeys(s.outbox));
      }
      CallsPublishAll(after, limit, batches[1..], t);
    }
  }

  /** Any number of calls can be made. */
  lemma {:induction false} MakeCalls(s: State, limit: nat, now: nat, n: nat) returns (batches: seq<Batch>, t: State)
    requires s.publishers == map[]
    ensures Calls(s, limit, batches, t) && |batches| == n && forall i :: 0 <= i < n ==> batches[i].now == now
    decreases n
  {
    if n == 0 {
      batches, t := [], s;
    } else {
      var b := SomeBatch(s, now, limit);
      CallIsSteps(s, limit, b);
      var rest;
      rest, t := MakeCalls(Called(s, b), limit, now, n - 1);
      batches := [b] + rest;
      assert batches[1..] == rest;
    }
  }

  lemma Fewer(some: set<Key>, all: set<Key>)
    requires some < all
    ensures |some| < |all|
  {
    assert all == some + (all - some);
  }
}
