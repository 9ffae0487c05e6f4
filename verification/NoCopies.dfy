/** What the row locks are for: a run in which no publisher crashes and no XADD times out puts every
    event on the Stream at most once, however many publishers run side by side. */
module NoCopies {
  import opened Events
  import opened Protocol
  import opened Invariant
  import opened Preservation
  import opened Delivery

  /** Steps other than a publisher crash, an XADD of unknown outcome and its late arrival. */
  predicate Calm(step: Step) {
    !step.CrashPublisher? && !step.LateArrival? && (step.PublishNext? ==> !step.outcome.Unknown?)
  }

  predicate MarkedBySome(publishers: map<nat, Publisher>, k: Key) {
    exists p :: p in publishers && k in publishers[p].marked
  }

  predicate TidyPublisher(pub: Publisher) {
    && (forall i, j :: 0 <= i < j < |pub.batch| ==> pub.batch[i] != pub.batch[j])
    && (forall k :: k in pub.marked ==> Among(pub.batch, pub.next, k))
  }

  predicate Distinct(stream: seq<Event>) {
    forall i, j :: 0 <= i < j < |stream| ==> KeyOf(stream[i]) != KeyOf(stream[j])
  }

  /** A message whose row is still PENDING was sent by a transaction that is still open. */
  ghost predicate Accounted(outbox: map<Key, OutboxRow>, publishers: map<nat, Publisher>, stream: seq<Event>) {
    forall i :: 0 <= i < |stream| && IsPending(outbox, KeyOf(stream[i])) ==> MarkedBySome(publishers, KeyOf(stream[i]))
  }

  ghost predicate Tidy(s: State) {
    && Distinct(s.stream)
    && Accounted(s.outbox, s.publishers, s.stream)
    && forall p :: p in s.publishers ==> TidyPublisher(s.publishers[p])
  }

  lemma CommitWriterTidy(s: State, x: Uuid)
    requires Inv(s) && Tidy(s) && x in s.writers
    ensures Tidy(Committed(s, x))
  {
    var t := Committed(s, x);
    assert Counter(s.counters, x) == |Of(s.history, x)|;
    forall i | 0 <= i < |t.stream| && IsPending(t.outbox, KeyOf(t.stream[i]))
      ensures MarkedBySome(t.publishers, KeyOf(t.stream[i]))
    {
      assert Durable(s.history, s.stream[i]);
      CommitPending(s.history, s.outbox, x, s.writers[x], KeyOf(s.stream[i]));
    }
  }

  lemma SelectHeadsTidy(s: State, p: nat, now: nat, heads: seq<Key>)
    requires Tidy(s) && CanSelectHeads(s, p, now, heads)
    ensures Tidy(HeadsSelected(s, p, now, heads))
  {
    var t := HeadsSelected(s, p, now, heads);
    forall i | 0 <= i < |t.stream| && IsPending(t.outbox, KeyOf(t.stream[i]))
      ensures MarkedBySome(t.publishers, KeyOf(t.stream[i]))
    {
      assert MarkedBySome(s.publishers, KeyOf(s.stream[i]));
      var q :| q in s.publishers && KeyOf(s.stream[i]) in s.publishers[q].marked;
      assert q in t.publishers && t.publishers[q] == s.publishers[q];
    }
  }

  lemma FollowersDistinct(s: State, p: nat, followers: seq<Key>)
    requires p in s.publishers && IsFollowerBatch(s, p, followers)
    requires forall i, j ::
      0 <= i < j < |s.publishers[p].heads| ==> s.publishers[p].heads[i] != s.publishers[p].heads[j]
    ensures var batch := s.publishers[p].heads + followers; forall i, j :: 0 <= i < j < |batch| ==> batch[i] != batch[j]
  {
    var heads := s.publishers[p].heads;
    var batch := heads + followers;
    forall i, j | 0 <= i < j < |batch| ensures batch[i] != batch[j] {
      if j >= |heads| {
        assert IsFollower(s, p, followers[j - |heads|]);
        if i >= |heads| {
          assert Before(followers[i - |heads|], followers[j - |heads|]);
        } else {
          assert heads[i] in heads;
        }
      }
    }
  }

  lemma FollowersMarks(s: State, p: nat, followers: seq<Key>, k: Key)
    requires p in s.publishers && MarkedBySome(s.publishers, k)
    ensures MarkedBySome(FollowersSelected(s, p, followers).publishers, k)
  {
    var q :| q in s.publishers && k in s.publishers[q].marked;
    assert k in FollowersSelected(s, p, followers).publishers[q].marked;
  }

  lemma SelectFollowersTidy(s: State, p: nat, followers: seq<Key>)
    requires Tidy(s) && p in s.publishers && IsFollowerBatch(s, p, followers)
    requires s.publishers[p].batch == s.publishers[p].heads && s.publishers[p].next == 0
    ensures Tidy(FollowersSelected(s, p, followers))
  {
    var t := FollowersSelected(s, p, followers);
    assert TidyPublisher(s.publishers[p]);
    FollowersDistinct(s, p, followers);
    assert s.publishers[p].marked == {};
    forall i | 0 <= i < |t.stream| && IsPending(t.outbox, KeyOf(t.stream[i]))
      ensures MarkedBySome(t.publishers, KeyOf(t.stream[i]))
    {
      FollowersMarks(s, p, followers, KeyOf(s.stream[i]));
    }
  }

  /** The row a publisher is about to send is not on the Stream. */
  lemma NextUnsent(s: State, p: nat, i: nat)
    requires Inv(s) && Tidy(s) && CanPublish(s, p) && i < |s.stream|
    ensures KeyOf(s.stream[i]) != s.publishers[p].batch[s.publishers[p].next]
  {
    var pub := s.publishers[p];
    var k := pub.batch[pub.next];
    assert PublisherOk(s.outbox, s.stream, pub) && IsPending(s.outbox, k);
    if KeyOf(s.stream[i]) == k {
      var q :| q in s.publishers && k in s.publishers[q].marked;
      SentOnce(s, p, q);
    }
  }

  lemma SentOnce(s: State, p: nat, q: nat)
    requires PublishersOk(s.outbox, s.stream, s.publishers) && CanPublish(s, p) && q in s.publishers
    requires TidyPublisher(s.publishers[p])
    ensures s.publishers[p].batch[s.publishers[p].next] !in s.publishers[q].marked
  {
    var pub := s.publishers[p];
    var k := pub.batch[pub.next];
    assert PublisherOk(s.outbox, s.stream, s.publishers[q]);
    if q != p {
      assert forall j :: 0 <= j < |s.publishers[q].batch| ==> s.publishers[q].batch[j].execution != k.execution;
    } else {
      assert !Among(pub.batch, pub.next, k);
    }
  }

  lemma TurnTidy(pub: Publisher, outcome: Outcome)
    requires TidyPublisher(pub) && pub.next < |pub.batch|
    ensures TidyPublisher(Turn(pub, outcome))
  {
    var after := Turn(pub, outcome);
    forall k | k in after.marked ensures Among(after.batch, after.next, k) {
      if k in pub.marked {
        assert Among(pub.batch, pub.next, k);
      } else {
        assert after.batch[pub.next] == k;
      }
    }
  }

  lemma DistinctMore(stream: seq<Event>, e: Event)
    requires Distinct(stream) && forall i :: 0 <= i < |stream| ==> KeyOf(stream[i]) != KeyOf(e)
    ensures Distinct(stream + [e])
  {
  }

  lemma PublishNextDistinct(s: State, p: nat, outcome: Outcome)
    requires Inv(s) && Tidy(s) && CanPublish(s, p)
    ensures Distinct(PublishedNext(s, p, outcome).stream)
  {
    var event := s.outbox[s.publishers[p].batch[s.publishers[p].next]].event;
    forall i | 0 <= i < |s.stream| ensures KeyOf(s.stream[i]) != KeyOf(event) {
      NextUnsent(s, p, i);
    }
    DistinctMore(s.stream, event);
  }

  lemma TurnKeepsMarks(publishers: map<nat, Publisher>, p: nat, outcome: Outcome, k: Key)
    requires p in publishers && publishers[p].next < |publishers[p].batch| && MarkedBySome(publishers, k)
    ensures MarkedBySome(publishers[p := Turn(publishers[p], outcome)], k)
  {
    var q :| q in publishers && k in publishers[q].marked;
    var after := publishers[p := Turn(publishers[p], outcome)];
    assert q in after && k in after[q].marked;
  }

  lemma PublishNextAccounted(s: State, p: nat, outcome: Outcome)
    requires Tidy(s) && CanPublish(s, p) && !outcome.Unknown?
    requires var k := s.publishers[p].batch[s.publishers[p].next]; KeyOf(s.outbox[k].event) == k
    ensures var t := PublishedNext(s, p, outcome); Accounted(t.outbox, t.publishers, t.stream)
  {
    var t := PublishedNext(s, p, outcome);
    var k := s.publishers[p].batch[s.publishers[p].next];
    forall i | 0 <= i < |t.stream| && IsPending(t.outbox, KeyOf(t.stream[i]))
      ensures MarkedBySome(t.publishers, KeyOf(t.stream[i]))
    {
      if i < |s.stream| {
        TurnKeepsMarks(s.publishers, p, outcome, KeyOf(s.stream[i]));
      } else {
        assert k in t.publishers[p].marked;
      }
    }
  }

  lemma PublishNextTidy(s: State, p: nat, outcome: Outcome)
    requires Inv(s) && Tidy(s) && CanPublish(s, p) && !outcome.Unknown?
    ensures Tidy(PublishedNext(s, p, outcome))
  {
    PublishNextDistinct(s, p, outcome);
    PublishNextAccounted(s, p, outcome);
    TurnTidy(s.publishers[p], outcome);
  }

  lemma CommitPublisherTidy(s: State, p: nat)
    requires Tidy(s) && p in s.publishers
    ensures Tidy(BatchCommitted(s, p))
  {
    var t := BatchCommitted(s, p);
    forall i | 0 <= i < |t.stream| && IsPending(t.outbox, KeyOf(t.stream[i]))
      ensures MarkedBySome(t.publishers, KeyOf(t.stream[i]))
    {
      assert t.outbox == CommitRows(s.publishers[p], s.outbox);
      CommitRowsPending(s.publishers[p], s.outbox, KeyOf(s.stream[i]));
      var q :| q in s.publishers && KeyOf(s.stream[i]) in s.publishers[q].marked;
      assert q in t.publishers;
    }
  }

  lemma OtherTidy(s: State, t: State)
    requires Tidy(s) && t.stream == s.stream && t.publishers == s.publishers
    requires forall k :: IsPending(t.outbox, k) ==> IsPending(s.outbox, k)
    ensures Tidy(t)
  {
  }

  predicate TouchesOutbox(step: Step) {
    step.CommitWriter? || step.SelectHeads? || step.SelectFollowers? || step.PublishNext? || step.LateArrival?
    || step.CommitPublisher? || step.CrashPublisher? || step.DeletePublished?
  }

  lemma OtherFrame(s: State, step: Step)
    requires Enabled(s, step) && !TouchesOutbox(step)
    ensures Do(s, step).stream == s.stream
    ensures Do(s, step).publishers == s.publishers
    ensures Do(s, step).outbox == s.outbox
  {
  }

  lemma StepTidy(s: State, step: Step)
    requires Inv(s) && Tidy(s) && Enabled(s, step) && Calm(step)
    ensures Tidy(Do(s, step))
  {
    if !TouchesOutbox(step) {
      OtherFrame(s, step);
      OtherTidy(s, Do(s, step));
    } else if step.DeletePublished? {
      OtherTidy(s, s.(outbox := s.outbox - step.keys));
    } else if step.CommitWriter? {
      CommitWriterTidy(s, step.execution);
    } else if step.SelectHeads? {
      SelectHeadsTidy(s, step.p, step.now, step.heads);
    } else if step.SelectFollowers? {
      assert PublisherOk(s.outbox, s.stream, s.publishers[step.p]);
      SelectFollowersTidy(s, step.p, step.followers);
    } else if step.PublishNext? {
      PublishNextTidy(s, step.p, step.outcome);
    } else {
      CommitPublisherTidy(s, step.p);
    }
  }

  lemma {:induction false} CalmRunTidy(s: State, steps: seq<Step>, t: State)
    requires Inv(s) && Tidy(s) && Leads(s, steps, t) && forall i :: 0 <= i < |steps| ==> Calm(steps[i])
    ensures Tidy(t)
    decreases |steps|
  {
    if |steps| > 0 {
      StepKeeps(s, steps[0]);
      StepTidy(s, steps[0]);
      CalmRunTidy(Do(s, steps[0]), steps[1..], t);
    }
  }

  /** Duplicates come from crashes and timeouts only. */
  lemma CalmRunsSendOnce(steps: seq<Step>, t: State, i: nat, j: nat)
    requires Leads(INIT, steps, t) && forall n :: 0 <= n < |steps| ==> Calm(steps[n])
    requires i < j < |t.stream|
    ensures KeyOf(t.stream[i]) != KeyOf(t.stream[j])
  {
    InitInv();
    CalmRunTidy(INIT, steps, t);
  }
}
