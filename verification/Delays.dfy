/** What delaying a row is for: while a row is not due, nothing behind it in its Execution is in
    any publisher's hands. */
module Delays {
  import opened Events
  import opened Protocol
  import opened Invariant
  import opened Delivery

  /** The rows a transaction holds were due when it began, and nobody moves them meanwhile. */
  predicate HoldsDue(outbox: map<Key, OutboxRow>, pub: Publisher) {
    forall i :: 0 <= i < |pub.batch| ==> pub.batch[i] in outbox && outbox[pub.batch[i]].availableAt <= pub.now
  }

  ghost predicate Due(outbox: map<Key, OutboxRow>, publishers: map<nat, Publisher>) {
    forall p :: p in publishers ==> HoldsDue(outbox, publishers[p])
  }

  lemma SelectFollowersDue(s: State, p: nat, followers: seq<Key>)
    requires p in s.publishers && Due(s.outbox, s.publishers) && IsFollowerBatch(s, p, followers)
    requires s.publishers[p].heads <= s.publishers[p].batch
    ensures Due(s.outbox, FollowersSelected(s, p, followers).publishers)
  {
    var t := FollowersSelected(s, p, followers);
    var pub := s.publishers[p];
    assert HoldsDue(s.outbox, pub);
    forall i | 0 <= i < |t.publishers[p].batch|
      ensures t.publishers[p].batch[i] in s.outbox && s.outbox[t.publishers[p].batch[i]].availableAt <= pub.now
    {
      if i < |pub.heads| {
        assert pub.batch[i] == pub.heads[i];
      } else {
        assert IsFollower(s, p, followers[i - |pub.heads|]);
      }
    }
  }

  /** A commit delays rows of its own batch only, and no other transaction holds their Executions. */
  lemma CommitDue(s: State, p: nat)
    requires Inv(s) && Due(s.outbox, s.publishers) && p in s.publishers
    ensures Due(BatchCommitted(s, p).outbox, BatchCommitted(s, p).publishers)
  {
    var t := BatchCommitted(s, p);
    var pub := s.publishers[p];
    assert PublisherOk(s.outbox, s.stream, pub);
    forall q | q in t.publishers ensures HoldsDue(t.outbox, t.publishers[q]) {
      var other := s.publishers[q];
      assert HoldsDue(s.outbox, other);
      forall i | 0 <= i < |other.batch| ensures t.outbox[other.batch[i]] == s.outbox[other.batch[i]] {
        NotHeldTwice(s, p, q, other.batch[i]);
      }
    }
  }

  lemma NotHeldTwice(s: State, p: nat, q: nat, k: Key)
    requires OneHolder(s.publishers) && p in s.publishers && q in s.publishers && p != q
    requires k in s.publishers[q].batch && MarksOk(s.outbox, s.stream, s.publishers[p])
    ensures k !in s.publishers[p].marked && k !in s.publishers[p].delayed
  {
    var j :| 0 <= j < |s.publishers[q].batch| && s.publishers[q].batch[j] == k;
    forall i | 0 <= i < |s.publishers[p].batch| ensures s.publishers[p].batch[i] != k {
      assert s.publishers[p].batch[i].execution != s.publishers[q].batch[j].execution;
    }
  }

  lemma CommitWriterDue(s: State, x: Uuid)
    requires Inv(s) && Due(s.outbox, s.publishers) && x in s.writers
    ensures Due(Committed(s, x).outbox, s.publishers)
  {
    var t := Committed(s, x);
    forall p | p in s.publishers ensures HoldsDue(t.outbox, s.publishers[p]) {
      var pub := s.publishers[p];
      assert HoldsDue(s.outbox, pub);
      forall i | 0 <= i < |pub.batch| ensures t.outbox[pub.batch[i]] == s.outbox[pub.batch[i]] {
        var k := pub.batch[i];
        assert Durable(s.history, s.outbox[k].event) && KeyOf(s.outbox[k].event) == k;
        assert Counter(s.counters, x) == |Of(s.history, x)|;
      }
    }
  }

  lemma DeleteDue(s: State, keys: set<Key>)
    requires Inv(s) && Due(s.outbox, s.publishers) && Enabled(s, DeletePublished(keys))
    ensures Due(s.outbox - keys, s.publishers)
  {
    forall p | p in s.publishers ensures HoldsDue(s.outbox - keys, s.publishers[p]) {
      assert HoldsDue(s.outbox, s.publishers[p]) && PublisherOk(s.outbox, s.stream, s.publishers[p]);
    }
  }

  lemma PublishNextDue(s: State, p: nat, outcome: Outcome)
    requires Due(s.outbox, s.publishers) && CanPublish(s, p)
    ensures Due(s.outbox, PublishedNext(s, p, outcome).publishers)
  {
    assert HoldsDue(s.outbox, s.publishers[p]);
  }

  predicate MovesRows(step: Step) {
    step.CommitWriter? || step.SelectHeads? || step.SelectFollowers? || step.PublishNext?
    || step.CommitPublisher? || step.CrashPublisher? || step.DeletePublished?
  }

  lemma OtherRows(s: State, step: Step)
    requires Enabled(s, step) && !MovesRows(step)
    ensures Do(s, step).outbox == s.outbox && Do(s, step).publishers == s.publishers
  {
  }

  lemma SelectHeadsDue(s: State, p: nat, now: nat, heads: seq<Key>)
    requires Due(s.outbox, s.publishers) && CanSelectHeads(s, p, now, heads)
    ensures Due(s.outbox, HeadsSelected(s, p, now, heads).publishers)
  {
  }

  lemma StepDue(s: State, step: Step)
    requires Inv(s) && Due(s.outbox, s.publishers) && Enabled(s, step)
    ensures Due(Do(s, step).outbox, Do(s, step).publishers)
  {
    if !MovesRows(step) {
      OtherRows(s, step);
    } else if step.CommitWriter? {
      CommitWriterDue(s, step.execution);
    } else if step.SelectHeads? {
      SelectHeadsDue(s, step.p, step.now, step.heads);
    } else if step.SelectFollowers? {
      assert PublisherOk(s.outbox, s.stream, s.publishers[step.p]);
      SelectFollowersDue(s, step.p, step.followers);
    } else if step.PublishNext? {
      PublishNextDue(s, step.p, step.outcome);
    } else if step.CommitPublisher? {
      CommitDue(s, step.p);
    } else if step.DeletePublished? {
      DeleteDue(s, step.keys);
    }
  }

  lemma {:induction false} RunDue(s: State, steps: seq<Step>, t: State)
    requires Inv(s) && Due(s.outbox, s.publishers) && Leads(s, steps, t)
    ensures Due(t.outbox, t.publishers)
    decreases |steps|
  {
    if |steps| > 0 {
      StepKeeps(s, steps[0]);
      StepDue(s, steps[0]);
      RunDue(Do(s, steps[0]), steps[1..], t);
    }
  }

  lemma ReachableDue(s: State)
    requires Reachable(s)
    ensures Due(s.outbox, s.publishers)
  {
    var steps :| Leads(INIT, steps, s);
    InitInv();
    RunDue(INIT, steps, s);
  }

  /** A row that is held is at the front of its Execution or follows one that is held. */
  lemma HeldPrior(history: History, outbox: map<Key, OutboxRow>, batch: seq<Key>, x: Uuid, n: nat, m: nat)
    requires OutboxOk(history, outbox) && PendingSuffix(history, outbox) && BatchOk(outbox, batch)
    requires IsPending(outbox, Key(x, n)) && n < m && Key(x, m) in batch
    ensures Key(x, m - 1) in batch
  {
    var i :| 0 <= i < |batch| && batch[i] == Key(x, m);
    assert IsPending(outbox, batch[i]) && Ordered(outbox, batch, i);
    assert Durable(history, outbox[Key(x, m)].event) && KeyOf(outbox[Key(x, m)].event) == Key(x, m);
    assert IsPending(outbox, Key(x, m - 1));
  }

  /** A batch that holds a row holds every PENDING row before it. */
  lemma {:induction false} HeldFromFront(history: History, outbox: map<Key, OutboxRow>, batch: seq<Key>,
                                         x: Uuid, n: nat, m: nat)
    requires OutboxOk(history, outbox) && PendingSuffix(history, outbox) && BatchOk(outbox, batch)
    requires IsPending(outbox, Key(x, n)) && n <= m && Key(x, m) in batch
    ensures Key(x, n) in batch
    decreases m
  {
    if n < m {
      HeldPrior(history, outbox, batch, x, n, m);
      HeldFromFront(history, outbox, batch, x, n, m - 1);
    }
  }

  /** While a PENDING row is not due for a publisher, the publisher holds neither it nor any later row
      of its Execution, however rows were delayed, published and deleted around it. */
  lemma DelayedRowBlocks(s: State, p: nat, x: Uuid, n: nat, m: nat)
    requires Reachable(s) && p in s.publishers && n <= m
    requires IsPending(s.outbox, Key(x, n)) && s.outbox[Key(x, n)].availableAt > s.publishers[p].now
    ensures Key(x, m) !in s.publishers[p].batch
  {
    ReachableInv(s);
    ReachableDue(s);
    assert PublisherOk(s.outbox, s.stream, s.publishers[p]) && HoldsDue(s.outbox, s.publishers[p]);
    if Key(x, m) in s.publishers[p].batch {
      HeldFromFront(s.history, s.outbox, s.publishers[p].batch, x, n, m);
    }
  }
}
