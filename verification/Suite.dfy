/** The local validation suite's runner: steps that need the Executor for themselves run while the
    Compose Executor is stopped, all others while it runs. */
module Suite {
  datatype Step = Step(name: string, exclusive: bool)

  /** How one command ends. A failed or interrupted command may still have had its effect: the Executor
      stopped or came up, or the step left a result. */
  datatype Outcome = Done | Failed(effect: bool) | Interrupted(effect: bool)

  /** What the runner did; a step notes whether the Executor was running and whether it only restores. */
  datatype Event =
    | Stop(outcome: Outcome)
    | Up(outcome: Outcome)
    | Ran(step: Step, restore: bool, running: bool, outcome: Outcome)

  datatype Result = Result(step: Step, restore: bool, passed: bool)

  /** How a block of code ends; an interrupt is not an `Exception` and passes its handlers. */
  datatype Exit = Normal | Error | Interrupt

  datatype Status = Passed | Failed

  /** Nothing is written when the restoring itself is interrupted. */
  datatype Summary = Unwritten | Written(status: Status, results: seq<Result>)

  const RESTORE := Step("restore-compose-targets", false)

  // -------------------------------------------------------------- specification

  predicate Failure(e: Event) {
    e.outcome.Failed?
  }

  predicate Interruption(e: Event) {
    e.outcome.Interrupted?
  }

  predicate NoFailure(trace: seq<Event>) {
    forall i :: 0 <= i < |trace| ==> !Failure(trace[i])
  }

  predicate NoInterruption(trace: seq<Event>) {
    forall i :: 0 <= i < |trace| ==> !Interruption(trace[i])
  }

  predicate AllDone(trace: seq<Event>) {
    forall i :: 0 <= i < |trace| ==> trace[i].outcome.Done?
  }

  /** Every stop and start of the Executor succeeded. */
  predicate ComposeWorks(trace: seq<Event>) {
    forall i :: 0 <= i < |trace| ==> trace[i].Ran? || trace[i].outcome.Done?
  }

  /** The Executor has not been stopped since a preflight last passed. */
  predicate Ready(trace: seq<Event>) {
    if |trace| == 0 then true
    else
      match trace[|trace| - 1]
      case Stop(_) => false
      case Up(_) => false
      case Ran(_, restore, running, outcome) =>
        if restore && running && outcome.Done? then true else Ready(trace[..|trace| - 1])
  }

  /** The i-th event, if it is a planned step, found the Executor as it needs it. */
  predicate SafeAt(trace: seq<Event>, i: nat)
    requires i < |trace|
  {
    trace[i].Ran? && !trace[i].restore ==>
      if trace[i].step.exclusive then !trace[i].running else trace[i].running && Ready(trace[..i])
  }

  predicate Safe(trace: seq<Event>) {
    forall i {:trigger SafeAt(trace, i)} :: 0 <= i < |trace| ==> SafeAt(trace, i)
  }

  /** The results of planned steps, without the restoring ones. */
  function Planned(results: seq<Result>): seq<Result> {
    if |results| == 0 then []
    else
      var last := results[|results| - 1];
      var before := Planned(results[..|results| - 1]);
      if last.restore then before else before + [last]
  }

  /** The first `n` steps passed, each once and in order. */
  function PassedTo(steps: seq<Step>, n: nat): (r: seq<Result>)
    requires n <= |steps|
    ensures |r| == n
  {
    seq(n, i requires 0 <= i < n => Result(steps[i], false, true))
  }

  lemma PlannedMore(results: seq<Result>, r: Result)
    ensures Planned(results + [r]) == if r.restore then Planned(results) else Planned(results) + [r]
  {
    assert (results + [r])[..|results|] == results;
  }

  lemma StepMissing(steps: seq<Step>, k: nat, planned: seq<Result>)
    requires k < |steps|
    requires planned == PassedTo(steps, k) || planned == PassedTo(steps, k) + [Result(steps[k], false, false)]
    ensures planned != PassedTo(steps, |steps|)
  {
    if |planned| == k + 1 {
      assert planned[k] != PassedTo(steps, |steps|)[k];
    }
  }

  lemma PassedMore(steps: seq<Step>, n: nat)
    requires n < |steps|
    ensures PassedTo(steps, n + 1) == PassedTo(steps, n) + [Result(steps[n], false, true)]
  {
  }

  lemma ReadyMore(trace: seq<Event>, e: Event)
    ensures Ready(trace + [e]) == (e.Ran? && ((e.restore && e.running && e.outcome.Done?) || Ready(trace)))
  {
    assert (trace + [e])[..|trace|] == trace;
  }

  lemma SafeMore(trace: seq<Event>, e: Event)
    requires Safe(trace)
    requires e.Ran? && !e.restore ==> if e.step.exclusive then !e.running else e.running && Ready(trace)
    ensures Safe(trace + [e])
  {
    var more := trace + [e];
    forall i | 0 <= i < |more| ensures SafeAt(more, i) {
      if i < |trace| {
        assert SafeAt(trace, i);
        assert more[..i] == trace[..i];
      } else {
        assert more[..i] == trace;
      }
    }
  }

  /** What holds of every event holds of both parts of a trace. */
  lemma Appended(before: seq<Event>, more: seq<Event>)
    ensures AllDone(before + more) <==> AllDone(before) && AllDone(more)
    ensures NoFailure(before + more) <==> NoFailure(before) && NoFailure(more)
    ensures NoInterruption(before + more) <==> NoInterruption(before) && NoInterruption(more)
    ensures ComposeWorks(before + more) <==> ComposeWorks(before) && ComposeWorks(more)
  {
    var all := before + more;
    assert forall i :: 0 <= i < |before| ==> all[i] == before[i];
    assert forall i :: 0 <= i < |more| ==> all[|before| + i] == more[i];
  }

  /** A trace whose last event alone went wrong. */
  lemma LastBroke(trace: seq<Event>, exit: Exit)
    requires |trace| > 0 && AllDone(trace[..|trace| - 1]) && exit != Normal
    requires if exit == Error then Failure(trace[|trace| - 1]) else Interruption(trace[|trace| - 1])
    ensures !AllDone(trace) && (NoFailure(trace) <==> exit != Error) && (NoInterruption(trace) <==> exit != Interrupt)
    ensures ComposeWorks(trace) <==> trace[|trace| - 1].Ran?
  {
    var before, last := trace[..|trace| - 1], trace[|trace| - 1];
    assert trace == before + [last];
    Appended(before, [last]);
    assert [last][0] == last;
  }

  /** What restoring adds to a trace. */
  lemma RestoreFacts(before: seq<Event>, trace: seq<Event>, exit: Exit)
    requires |before| < |trace| <= |before| + 2 && trace[..|before|] == before && trace[|before|].Up?
    requires |trace| == |before| + 2 ==> trace[|before|].outcome.Done? && trace[|before| + 1].Ran?
    requires exit == ExitOf(trace[|trace| - 1].outcome)
    ensures AllDone(trace) <==> AllDone(before) && exit == Normal
    ensures NoFailure(trace) <==> NoFailure(before) && exit != Error
    ensures NoInterruption(trace) <==> NoInterruption(before) && exit != Interrupt
    ensures ComposeWorks(trace) <==> ComposeWorks(before) && trace[|before|].outcome.Done?
    ensures AllDone(before) ==> AllDone(trace[..|trace| - 1])
  {
    var more := trace[|before|..];
    assert trace == before + more;
    Appended(before, more);
    assert more[0] == trace[|before|];
    assert |more| == 2 ==> more[1] == trace[|before| + 1];
  }

  function ExitOf(o: Outcome): Exit {
    match o
    case Done => Normal
    case Failed(_) => Error
    case Interrupted(_) => Interrupt
  }

  lemma StepRan(before: seq<Event>, e: Event)
    requires e.Ran? && !e.restore && e.running == !e.step.exclusive
    requires AllDone(before) && Safe(before) && (e.running ==> Ready(before))
    ensures Safe(before + [e]) && (e.running ==> Ready(before + [e]))
    ensures AllDone(before + [e]) <==> e.outcome.Done?
  {
    SafeMore(before, e);
    ReadyMore(before, e);
    Appended(before, [e]);
    assert [e][0] == e;
  }

  // -------------------------------------------------------------------- runner

  /** The runner and the world it acts on. `world` decides how the n-th command ends. */
  class Runner {
    const world: nat -> Outcome
    var running: bool
    var stopped: bool
    var results: seq<Result>
    var trace: seq<Event>

    constructor (world: nat -> Outcome)
      ensures this.world == world && running && !stopped && results == [] && trace == []
    {
      this.world := world;
      running, stopped, results, trace := true, false, [], [];
    }

    /** Everything went well so far. */
    predicate Going()
      reads this
    {
      AllDone(trace) && Safe(trace) && running == !stopped && (stopped || Ready(trace))
    }

    /** The last command raised. A failed or interrupted stop leaves the flag unset. */
    predicate Broken(exit: Exit)
      reads this
    {
      && exit != Normal && |trace| > 0 && AllDone(trace[..|trace| - 1]) && Safe(trace)
      && (var last := trace[|trace| - 1];
          && (if exit == Error then Failure(last) else Interruption(last))
          && (last.Ran? ==> running == !stopped))
    }

    method Compose(up: bool) returns (exit: Exit)
      modifies this`running, this`trace
      ensures var o := world(old(|trace|));
        && trace == old(trace) + [if up then Up(o) else Stop(o)]
        && exit == ExitOf(o)
        && running == if o.Done? || o.effect then up else old(running)
    {
      var o := world(|trace|);
      trace := trace + [if up then Up(o) else Stop(o)];
      if o.Done? || o.effect {
        running := up;
      }
      exit := ExitOf(o);
    }

    /** `_run_required_step`. */
    method RunRequired(step: Step, restore: bool) returns (exit: Exit)
      modifies this`results, this`trace
      ensures var o := world(old(|trace|));
        && trace == old(trace) + [Ran(step, restore, running, o)]
        && exit == ExitOf(o)
        && results == if o.Done? || (o.Failed? && o.effect) then old(results) + [Result(step, restore, o.Done?)]
                      else old(results)
    {
      var o := world(|trace|);
      trace := trace + [Ran(step, restore, running, o)];
      if o.Done? || (o.Failed? && o.effect) {
        results := results + [Result(step, restore, o.Done?)];
      }
      exit := ExitOf(o);
    }

    /** Bring the Executor back and put the Compose targets in place again. */
    method Restore() returns (exit: Exit)
      requires Safe(trace)
      modifies this
      ensures Safe(trace) && Planned(results) == old(Planned(results))
      ensures trace == old(trace) + [Up(world(old(|trace|)))]
              || trace == old(trace) + [Up(Done), Ran(RESTORE, true, true, world(old(|trace|) + 1))]
      ensures exit == ExitOf(trace[|trace| - 1].outcome)
      ensures exit == Normal ==> Ready(trace) && |trace| == old(|trace|) + 2
      ensures stopped == (old(stopped) && trace[old(|trace|)].outcome != Done)
      ensures trace[old(|trace|)].outcome == Done ==> running
    {
      ghost var before := trace;
      exit := Compose(true);
      SafeMore(before, trace[|trace| - 1]);
      if exit == Normal {
        stopped := false;
        ghost var middle, kept := trace, results;
        exit := RunRequired(RESTORE, true);
        SafeMore(middle, trace[|trace| - 1]);
        ReadyMore(middle, trace[|trace| - 1]);
        PlannedMore(kept, Result(RESTORE, true, exit == Normal));
      }
    }

    method StopExecutor() returns (exit: Exit)
      requires Going() && !stopped
      modifies this`running, this`stopped, this`trace
      ensures exit == Normal ==> Going() && stopped
      ensures exit != Normal ==> Broken(exit)
    {
      ghost var before := trace;
      exit := Compose(false);
      SafeMore(before, trace[|before|]);
      Appended(before, [trace[|before|]]);
      assert trace[..|trace| - 1] == before;
      stopped := exit == Normal;
    }

    /** Stop or start the Executor as the step needs it. */
    method Prepare(step: Step) returns (exit: Exit)
      requires Going()
      modifies this
      ensures Planned(results) == old(Planned(results))
      ensures exit == Normal ==> Going() && stopped == step.exclusive
      ensures exit != Normal ==> Broken(exit)
      ensures old(stopped) == step.exclusive ==> exit == Normal && trace == old(trace) && results == old(results)
    {
      exit := Normal;
      if step.exclusive && !stopped {
        exit := StopExecutor();
      } else if !step.exclusive && stopped {
        ghost var before := trace;
        exit := Restore();
        RestoreFacts(before, trace, exit);
      }
    }

    /** Run a planned step. */
    method RunPlanned(step: Step) returns (exit: Exit)
      requires Going() && stopped == step.exclusive
      modifies this`results, this`trace
      ensures exit == Normal ==> Going() && Planned(results) == old(Planned(results)) + [Result(step, false, true)]
      ensures exit != Normal ==> Broken(exit)
      ensures exit != Normal ==> Planned(results) == old(Planned(results))
                                 || Planned(results) == old(Planned(results)) + [Result(step, false, false)]
      ensures exit == ExitOf(world(old(|trace|))) && (exit == Interrupt ==> results == old(results))
    {
      ghost var before, kept := trace, results;
      exit := RunRequired(step, false);
      StepRan(before, trace[|before|]);
      assert trace[..|trace| - 1] == before;
      PlannedMore(kept, Result(step, false, exit == Normal));
    }

    /** An interrupt hits the first step, and that step needs no stop before it. */
    predicate InterruptedAtOnce(steps: seq<Step>) {
      |steps| > 0 && !steps[0].exclusive && world(0).Interrupted?
    }

    /** The `try` block. */
    method Body(steps: seq<Step>) returns (exit: Exit)
      requires Going() && !stopped && results == [] && trace == []
      modifies this
      ensures InterruptedAtOnce(steps) ==> exit == Interrupt && !stopped && results == []
      ensures exit == Normal ==> Going() && Planned(results) == PassedTo(steps, |steps|)
      ensures exit != Normal ==> Broken(exit) && Planned(results) != PassedTo(steps, |steps|)
    {
      exit := Normal;
      for k := 0 to |steps|
        invariant exit == Normal && Going() && Planned(results) == PassedTo(steps, k)
        invariant if k == 0 then !stopped && results == [] && trace == [] else !InterruptedAtOnce(steps)
      {
        exit := Prepare(steps[k]);
        if exit == Normal {
          exit := RunPlanned(steps[k]);
        }
        if exit != Normal {
          StepMissing(steps, k, Planned(results));
          return;
        }
        PassedMore(steps, k);
      }
    }

    /** `main`. */
    method RunSuite(steps: seq<Step>) returns (exit: Exit, summary: Summary)
      requires running && !stopped && results == [] && trace == []
      modifies this
      ensures Safe(trace)
      ensures exit == Normal <==> AllDone(trace)
      ensures exit == Normal ==> summary.Written? && summary.status == Passed
      ensures summary.Written? ==> summary.results == results && (summary.status == Passed <==> NoFailure(trace))
      ensures summary.Written? && summary.status == Passed ==>
        (Planned(results) == PassedTo(steps, |steps|) && running <==> NoInterruption(trace))
      ensures InterruptedAtOnce(steps) ==> summary == Written(Passed, [])
      ensures !running ==> !ComposeWorks(trace)
    {
      exit := Body(steps);
      var status := if exit == Error then Status.Failed else Passed;
      ghost var before := trace;
      if exit != Normal {
        LastBroke(trace, exit);
      }
      if stopped {
        var restored := Restore();
        RestoreFacts(before, trace, restored);
        if restored == Interrupt {
          return Interrupt, Unwritten;
        }
        if restored == Error {
          status := Status.Failed;
          exit := if exit == Interrupt then Interrupt else Error;
        }
      }
      summary := Written(status, results);
    }
  }
}
