/** What trimming the Stream does to the evidence check: durable and published is not enough, and neither
    is that every event is still on the Stream. */
module Trimming {
  import opened Json
  import opened Events
  import opened Protocol
  import opened Invariant
  import opened Recovery
  import opened Batches
  import opened Runs
  import opened Evidence

  lemma ReachesTrimmed(s: State, upTo: nat)
    requires Reachable(s) && s.trimmed <= upTo <= |s.stream|
    ensures Reachable(s.(trimmed := upTo))
  {
    One(s, Trim(upTo));
    ReachesOn(s, [Trim(upTo)], s.(trimmed := upTo));
  }

  /** Once all messages of an Execution that has events are trimmed, the check refuses it, published or not. */
  lemma TrimmedAwayIsRefused(s: State, x: Uuid, upTo: nat)
    requires Reachable(s) && |Of(s.history, x)| > 0 && s.trimmed <= upTo <= |s.stream|
    requires forall i :: upTo <= i < |s.stream| ==> s.stream[i].execution != x
    ensures var t := s.(trimmed := upTo);
      Reachable(t) && !Conforms(Of(t.history, x), MessagesOf(Retained(t), x))
  {
    var t := s.(trimmed := upTo);
    ReachesTrimmed(s, upTo);
    DecidesRetained(t, x);
    forall j | 0 <= j < |Retained(t)| ensures Retained(t)[j].execution != x {
      assert Retained(t)[j] == s.stream[upTo + j];
    }
  }

  /** The shortest such run: the first events of two Executions are published, and the Stream is cut to one
      message. The check accepts the older Execution before the cut and refuses it after. */
  lemma PublishedThenTrimmed(e: Event, f: Event) returns (s: State, t: State)
    requires e.sequence == f.sequence == 1 && e.execution != f.execution && e.id != f.id
    requires WellFormed(e.payload) && WellFormed(f.payload)
    ensures Reachable(s) && Reachable(t) && t == s.(trimmed := 1)
    ensures s.stream == [e, f] && Of(s.history, e.execution) == [e] && forall k :: !IsPending(s.outbox, k)
    ensures Conforms([e], MessagesOf(Retained(s), e.execution))
    ensures !Conforms([e], MessagesOf(Retained(t), e.execution))
  {
    InitReachable();
    var one := ReachesPublished(INIT, e);
    s := ReachesPublished(one, f);
    AcceptsEveryFullyPublishedStream(s, e.execution);
    TrimmedAwayIsRefused(s, e.execution, 1);
    t := s.(trimmed := 1);
  }

  // ------------------------------------------------------------- a late copy

  lemma TimeOutStep(s: State, e: Event)
    requires OnlyPending(s, e)
    ensures var from := Sending(s, Alone(e), 0);
      var to := from.(publishers := map[0 := Turn(from.publishers[0], Unknown(false, 0))],
                      inflight := s.inflight + {e});
      Leads(from, [PublishNext(0, Unknown(false, 0))], to)
  {
    var from := Sending(s, Alone(e), 0);
    One(from, PublishNext(0, Unknown(false, 0)));
    assert from.publishers[0 := Turn(from.publishers[0], Unknown(false, 0))]
        == map[0 := Turn(from.publishers[0], Unknown(false, 0))];
  }

  lemma CrashStep(s: State, from: State)
    requires s.publishers == map[] && 0 in from.publishers && from == s.(publishers := from.publishers)
    requires from.publishers.Keys == {0}
    ensures Leads(from, [CrashPublisher(0)], s)
  {
    assert from.publishers - {0} == map[];
    One(from, CrashPublisher(0));
  }

  /** A publisher whose XADD times out, and that then stops: the command may still arrive. */
  lemma TimesOut(s: State, e: Event) returns (steps: seq<Step>)
    requires OnlyPending(s, e)
    ensures Leads(s, steps, s.(inflight := s.inflight + {e}))
  {
    var b, t := Alone(e), s.(inflight := s.inflight + {e});
    AloneIsBatch(s, e, 1);
    SelectSteps(s, 1, b);
    TimeOutStep(s, e);
    var headed, from := HeadsSelected(s, 0, b.now, b.heads), Sending(s, b, 0);
    var to := from.(publishers := map[0 := Turn(from.publishers[0], Unknown(false, 0))],
                    inflight := s.inflight + {e});
    assert SentTo(s.outbox, b.Keys(), 0) == [];
    assert s.stream + [] == s.stream;
    CrashStep(t, to);
    var first, second := [SelectHeads(0, b.now, b.heads)], [SelectFollowers(0, b.followers)];
    var third := [PublishNext(0, Unknown(false, 0))];
    Join(s, first, headed, second, from);
    Join(s, first + second, from, third, to);
    Join(s, first + second + third, to, [CrashPublisher(0)], t);
    steps := first + second + third + [CrashPublisher(0)];
  }

  lemma ReachesLate(s: State, e: Event)
    requires Reachable(s) && e in s.inflight
    ensures Reachable(s.(stream := s.stream + [e]))
  {
    One(s, LateArrival(e));
    ReachesOn(s, [LateArrival(e)], s.(stream := s.stream + [e]));
  }

  /** A first event whose XADD timed out and which was then sent again. */
  lemma SentAgain(e: Event) returns (t: State)
    requires e.sequence == 1 && WellFormed(e.payload)
    ensures Reachable(t) && Idle(t) && t.stream == [e] && t.trimmed == 0 && e in t.inflight
    ensures Of(t.history, e.execution) == [e] && t.issued == map[e.id := KeyOf(e)] && Counted(map[], e, t.counters)
  {
    InitReachable();
    var stored := ReachesStored(INIT, e);
    StoredAlone(INIT, e, stored);
    var steps := TimesOut(stored, e);
    var waiting := stored.(inflight := stored.inflight + {e});
    ReachesOn(stored, steps, waiting);
    steps, t := Publish(waiting, e, 1);
    ReachesOn(waiting, steps, t);
  }

  /** Two events of an Execution, published in order, and a copy of the first that arrives late. */
  lemma LateCopy(a: Event, b: Event) returns (t: State)
    requires a.execution == b.execution && a.sequence == 1 && b.sequence == 2 && a.id != b.id
    requires WellFormed(a.payload) && WellFormed(b.payload)
    ensures Reachable(t) && t.stream == [a, b, a] && t.trimmed == 0
    ensures Of(t.history, a.execution) == [a, b] && forall k :: !IsPending(t.outbox, k)
  {
    var sent := SentAgain(a);
    var both := ReachesPublished(sent, b);
    ReachesLate(both, a);
    t := both.(stream := both.stream + [a]);
  }

  /** The copy outlives the original: both durable events are still on the Stream, and the check refuses. */
  lemma LateCopyIsRefused(a: Event, b: Event) returns (t: State)
    requires a.execution == b.execution && a.sequence == 1 && b.sequence == 2 && a.id != b.id
    requires WellFormed(a.payload) && WellFormed(b.payload)
    ensures Reachable(t) && Of(t.history, a.execution) == [a, b] && forall k :: !IsPending(t.outbox, k)
    ensures Retained(t) == [b, a] && !Conforms([a, b], MessagesOf(Retained(t), a.execution))
  {
    var s := LateCopy(a, b);
    ReachesTrimmed(s, 1);
    t := s.(trimmed := 1);
    DecidesRetained(t, a.execution);
    assert !InOrder(Retained(t), 0);
  }
}
