/** What holds in every state of every run of the event protocol. */
module Delivery {
  import opened Protocol
  import opened Invariant
  import opened Preservation
  import opened AgentPreservation

  // ----------------------------------------------------------------- all runs

  lemma InitInv()
    ensures Inv(INIT)
  {
    forall x ensures DbRowsOk(INIT.history, INIT.db, x) {
    }
  }

  lemma WriterStepKeeps(s: State, step: Step)
    requires Inv(s) && Enabled(s, step) && (step.Persist? || step.CommitWriter? || step.AbortWriter?)
    ensures Inv(Do(s, step))
  {
    match step {
      case Persist(_, _, _, _, _) => PersistKeeps(s, step);
      case CommitWriter(x) => CommitWriterKeeps(s, x);
      case AbortWriter(x) => AbortWriterKeeps(s, x);
    }
  }

  lemma BatchStepKeeps(s: State, step: Step)
    requires Inv(s) && Enabled(s, step) && (step.SelectHeads? || step.SelectFollowers? || step.PublishNext?)
    ensures Inv(Do(s, step))
  {
    match step {
      case SelectHeads(p, now, heads) => SelectHeadsKeeps(s, p, now, heads);
      case SelectFollowers(p, followers) => SelectFollowersKeeps(s, p, followers);
      case PublishNext(p, outcome) => PublishNextKeeps(s, p, outcome);
    }
  }

  lemma OutboxStepKeeps(s: State, step: Step)
    requires Inv(s) && Enabled(s, step)
    requires step.LateArrival? || step.CommitPublisher? || step.CrashPublisher? || step.DeletePublished?
    ensures Inv(Do(s, step))
  {
    match step {
      case LateArrival(event) => LateArrivalKeeps(s, event);
      case CommitPublisher(p) => CommitPublisherKeeps(s, p);
      case CrashPublisher(p) => CrashPublisherKeeps(s, p);
      case DeletePublished(keys) => DeletePublishedKeeps(s, keys);
    }
  }

  lemma GroupStepKeeps(s: State, step: Step)
    requires Inv(s) && Enabled(s, step) && (step.Trim? || step.CreateGroup? || step.Deliver? || step.Claim?)
    ensures Inv(Do(s, step))
  {
    match step {
      case Trim(upTo) => TrimKeeps(s, upTo);
      case CreateGroup(fromStart) => CreateGroupKeeps(s, fromStart);
      case Deliver(c, count) => DeliverKeeps(s, c, count);
      case Claim(c, ids) => ClaimKeeps(s, c, ids);
    }
  }

  lemma AgentStepKeeps(s: State, step: Step)
    requires Inv(s) && Enabled(s, step) && (step.ReadLast? || step.Settle? || step.Ack? || step.CrashConsumer?)
    ensures Inv(Do(s, step))
  {
    match step {
      case ReadLast(c) => ReadLastKeeps(s, c);
      case Settle(c) => SettleKeeps(s, c);
      case Ack(c) => AckKeeps(s, c);
      case CrashConsumer(c) => CrashConsumerKeeps(s, c);
    }
  }

  lemma StepKeeps(s: State, step: Step)
    requires Inv(s) && Enabled(s, step)
    ensures Inv(Do(s, step))
  {
    if step.Persist? || step.CommitWriter? || step.AbortWriter? {
      WriterStepKeeps(s, step);
    } else if step.SelectHeads? || step.SelectFollowers? || step.PublishNext? {
      BatchStepKeeps(s, step);
    } else if step.LateArrival? || step.CommitPublisher? || step.CrashPublisher? || step.DeletePublished? {
      OutboxStepKeeps(s, step);
    } else if step.Trim? || step.CreateGroup? || step.Deliver? || step.Claim? {
      GroupStepKeeps(s, step);
    } else {
      AgentStepKeeps(s, step);
    }
  }

  lemma {:induction false} RunKeeps(s: State, steps: seq<Step>, t: State)
    requires Inv(s) && Leads(s, steps, t)
    ensures Inv(t)
    decreases |steps|
  {
    if |steps| > 0 {
      StepKeeps(s, steps[0]);
      RunKeeps(Do(s, steps[0]), steps[1..], t);
    }
  }

  lemma ReachableInv(s: State)
    requires Reachable(s)
    ensures Inv(s)
  {
    var steps :| Leads(INIT, steps, s);
    InitInv();
    RunKeeps(INIT, steps, s);
  }
}
