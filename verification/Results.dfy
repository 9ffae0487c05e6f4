/** The result read model: an Execution's steps grouped into the bundles of its Operations. */
module Results {
  datatype Owner = Nobody | Operation(id: nat)

  /** `id` stands for everything else a step carries. */
  datatype Step = Step(id: nat, sequence: nat, owner: Owner)

  /** An Operation and the range of step sequences it was given. */
  datatype Operation = Op(id: nat, first: nat, last: nat)

  datatype Bundle = Bundle(operation: Operation, steps: seq<Step>)

  datatype Outcome = StepWithoutOperation | Bundles(bundles: seq<Bundle>)

  /** The steps of one Operation among the first `n`, in their order. */
  function Of(steps: seq<Step>, n: nat, id: nat): seq<Step>
    requires n <= |steps|
  {
    if n == 0 then []
    else
      var before := Of(steps, n - 1, id);
      if steps[n - 1].owner == Owner.Operation(id) then before + [steps[n - 1]] else before
  }

  /** `ExecutionResultQueryService.execution`: one pass over the steps, then one over the Operations. */
  method Group(operations: seq<Operation>, steps: seq<Step>) returns (r: Outcome)
    ensures r.StepWithoutOperation? <==> exists i :: 0 <= i < |steps| && steps[i].owner == Nobody
    ensures r.Bundles? ==> |r.bundles| == |operations|
    ensures r.Bundles? ==> forall k :: 0 <= k < |operations| ==>
      r.bundles[k] == Bundle(operations[k], Of(steps, |steps|, operations[k].id))
  {
    var byOperation: map<nat, seq<Step>> := map[];
    for n := 0 to |steps|
      invariant forall i :: 0 <= i < n ==> steps[i].owner != Nobody
      invariant forall id :: Of(steps, n, id) == if id in byOperation then byOperation[id] else []
    {
      var step := steps[n];
      match step.owner {
        case Nobody => return StepWithoutOperation;
        case Operation(id) =>
          var before := if id in byOperation then byOperation[id] else [];
          byOperation := byOperation[id := before + [step]];
      }
    }
    var bundles := [];
    for k := 0 to |operations|
      invariant |bundles| == k
      invariant forall j :: 0 <= j < k ==> bundles[j] == Bundle(operations[j], Of(steps, |steps|, operations[j].id))
    {
      var id := operations[k].id;
      bundles := bundles + [Bundle(operations[k], if id in byOperation then byOperation[id] else [])];
    }
    r := Bundles(bundles);
  }

  // ------------------------------------------------------- no step lost or twice

  /** The bundles of the first `m` Operations, over the first `n` steps, one after the other. */
  function Joined(operations: seq<Operation>, m: nat, steps: seq<Step>, n: nat): seq<Step>
    requires m <= |operations| && n <= |steps|
  {
    if m == 0 then [] else Joined(operations, m - 1, steps, n) + Of(steps, n, operations[m - 1].id)
  }

  predicate DistinctIds(operations: seq<Operation>) {
    forall j, k :: 0 <= j < k < |operations| ==> operations[j].id != operations[k].id
  }

  predicate Owns(operation: Operation, step: Step) {
    step.owner == Owner.Operation(operation.id)
  }

  /** The position of a step's Operation, or their number if it is not there. */
  ghost function Rank(operations: seq<Operation>, step: Step): (k: nat)
    ensures k <= |operations| && (k < |operations| ==> Owns(operations[k], step))
    ensures k == |operations| ==> forall j :: 0 <= j < |operations| ==> !Owns(operations[j], step)
  {
    if exists k :: 0 <= k < |operations| && Owns(operations[k], step)
    then var k :| 0 <= k < |operations| && Owns(operations[k], step); k
    else |operations|
  }

  ghost predicate Covered(operations: seq<Operation>, steps: seq<Step>) {
    forall i :: 0 <= i < |steps| ==> Rank(operations, steps[i]) < |operations|
  }

  /** With distinct ids an Operation's bundle holds the steps of its rank. */
  lemma RankIs(operations: seq<Operation>, step: Step, k: nat)
    requires DistinctIds(operations) && k < |operations|
    ensures Owns(operations[k], step) <==> Rank(operations, step) == k
  {
  }

  lemma MoreOf(operations: seq<Operation>, k: nat, steps: seq<Step>, n: nat)
    requires DistinctIds(operations) && k < |operations| && n < |steps|
    ensures Of(steps, n + 1, operations[k].id)
            == if Rank(operations, steps[n]) == k then Of(steps, n, operations[k].id) + [steps[n]]
               else Of(steps, n, operations[k].id)
  {
    RankIs(operations, steps[n], k);
  }

  /** How often a step occurs. */
  function Count(steps: seq<Step>, x: Step): nat {
    if |steps| == 0 then 0
    else Count(steps[..|steps| - 1], x) + if steps[|steps| - 1] == x then 1 else 0
  }

  lemma {:induction false} CountAppend(a: seq<Step>, b: seq<Step>, x: Step)
    ensures Count(a + b, x) == Count(a, x) + Count(b, x)
    decreases |b|
  {
    if |b| == 0 {
      assert a + b == a;
    } else {
      assert (a + b)[..|a + b| - 1] == a + b[..|b| - 1];
      CountAppend(a, b[..|b| - 1], x);
    }
  }

  lemma {:induction false} CountIsMultiplicity(s: seq<Step>, x: Step)
    ensures Count(s, x) == multiset(s)[x]
    decreases |s|
  {
    if |s| > 0 {
      var front := s[..|s| - 1];
      CountIsMultiplicity(front, x);
      assert s == front + [s[|s| - 1]];
    }
  }

  /** How often a step occurs in the bundles of the first `m` Operations together. */
  function JoinedCount(operations: seq<Operation>, m: nat, steps: seq<Step>, n: nat, x: Step): nat
    requires m <= |operations| && n <= |steps|
  {
    if m == 0 then 0
    else JoinedCount(operations, m - 1, steps, n, x) + Count(Of(steps, n, operations[m - 1].id), x)
  }

  lemma {:induction false} CountJoined(operations: seq<Operation>, m: nat, steps: seq<Step>, n: nat, x: Step)
    requires m <= |operations| && n <= |steps|
    ensures Count(Joined(operations, m, steps, n), x) == JoinedCount(operations, m, steps, n, x)
  {
    if m > 0 {
      CountJoined(operations, m - 1, steps, n, x);
      CountAppend(Joined(operations, m - 1, steps, n), Of(steps, n, operations[m - 1].id), x);
    }
  }

  lemma CountMoreOf(operations: seq<Operation>, k: nat, steps: seq<Step>, n: nat, x: Step)
    requires DistinctIds(operations) && k < |operations| && n < |steps|
    ensures Count(Of(steps, n + 1, operations[k].id), x)
            == Count(Of(steps, n, operations[k].id), x)
               + if Rank(operations, steps[n]) == k && x == steps[n] then 1 else 0
  {
    MoreOf(operations, k, steps, n);
    CountAppend(Of(steps, n, operations[k].id), [steps[n]], x);
  }

  /** One more step goes into exactly one bundle, or into none of the first `m`. */
  lemma {:induction false} OneMoreStep(operations: seq<Operation>, m: nat, steps: seq<Step>, n: nat, x: Step)
    requires m <= |operations| && n < |steps| && DistinctIds(operations)
    ensures JoinedCount(operations, m, steps, n + 1, x)
            == JoinedCount(operations, m, steps, n, x)
               + if Rank(operations, steps[n]) < m && x == steps[n] then 1 else 0
  {
    if m > 0 {
      OneMoreStep(operations, m - 1, steps, n, x);
      CountMoreOf(operations, m - 1, steps, n, x);
    }
  }

  lemma {:induction false} NothingJoined(operations: seq<Operation>, m: nat, steps: seq<Step>)
    requires m <= |operations|
    ensures Joined(operations, m, steps, 0) == []
  {
    if m > 0 {
      NothingJoined(operations, m - 1, steps);
      assert Of(steps, 0, operations[m - 1].id) == [];
    }
  }

  lemma {:induction false} StepsKept(operations: seq<Operation>, steps: seq<Step>, n: nat, x: Step)
    requires n <= |steps| && DistinctIds(operations) && Covered(operations, steps)
    ensures JoinedCount(operations, |operations|, steps, n, x) == Count(steps[..n], x)
  {
    if n == 0 {
      NothingJoined(operations, |operations|, steps);
      CountJoined(operations, |operations|, steps, 0, x);
    } else {
      StepsKept(operations, steps, n - 1, x);
      OneMoreStep(operations, |operations|, steps, n - 1, x);
      assert steps[..n][..n - 1] == steps[..n - 1];
    }
  }

  /** The bundles hold every step exactly once. */
  lemma EveryStepOnce(operations: seq<Operation>, steps: seq<Step>)
    requires DistinctIds(operations) && Covered(operations, steps)
    ensures multiset(Joined(operations, |operations|, steps, |steps|)) == multiset(steps)
  {
    var all := Joined(operations, |operations|, steps, |steps|);
    forall x: Step ensures multiset(all)[x] == multiset(steps)[x] {
      StepsKept(operations, steps, |steps|, x);
      CountJoined(operations, |operations|, steps, |steps|, x);
      assert steps[..|steps|] == steps;
      CountIsMultiplicity(all, x);
      CountIsMultiplicity(steps, x);
    }
  }

  // ------------------------------------------------------------ the order of steps

  ghost predicate RankedTo(operations: seq<Operation>, steps: seq<Step>, n: nat)
    requires n <= |steps|
  {
    forall i, j :: 0 <= i < j < n ==> Rank(operations, steps[i]) <= Rank(operations, steps[j])
  }

  /** No step comes before a step of an earlier Operation. */
  ghost predicate Ranked(operations: seq<Operation>, steps: seq<Step>) {
    RankedTo(operations, steps, |steps|)
  }

  lemma {:induction false} NoneOf(operations: seq<Operation>, k: nat, steps: seq<Step>, n: nat)
    requires DistinctIds(operations) && k < |operations| && n <= |steps|
    requires forall i :: 0 <= i < n ==> Rank(operations, steps[i]) < k
    ensures Of(steps, n, operations[k].id) == []
  {
    if n > 0 {
      NoneOf(operations, k, steps, n - 1);
      MoreOf(operations, k, steps, n - 1);
    }
  }

  /** A step of the Operation itself comes after its others; a step of an earlier one comes after nothing. */
  lemma AtTheEnd(before: seq<Step>, own: seq<Step>, x: Step, before': seq<Step>, own': seq<Step>)
    requires (before' == before && own' == own + [x]) || (before' == before + [x] && own' == own == [])
    ensures before' + own' == before + own + [x]
  {
  }

  /** The next step goes to the bundle at `r`, and the bundles behind that one are still empty. */
  predicate NextGoesTo(operations: seq<Operation>, k: nat, steps: seq<Step>, n: nat, r: nat)
    requires k < |operations| && n < |steps|
  {
    var own := Of(steps, n, operations[k].id);
    Of(steps, n + 1, operations[k].id) == (if r == k then own + [steps[n]] else own) && (r < k ==> own == [])
  }

  lemma NextBundle(operations: seq<Operation>, k: nat, steps: seq<Step>, n: nat)
    requires DistinctIds(operations) && k < |operations| && n < |steps|
    requires forall i :: 0 <= i < n ==> Rank(operations, steps[i]) <= Rank(operations, steps[n])
    ensures NextGoesTo(operations, k, steps, n, Rank(operations, steps[n]))
  {
    MoreOf(operations, k, steps, n);
    if Rank(operations, steps[n]) < k {
      NoneOf(operations, k, steps, n);
    }
  }

  lemma {:induction false} JoinedNext(operations: seq<Operation>, m: nat, steps: seq<Step>, n: nat, r: nat)
    requires m <= |operations| && n < |steps|
    requires forall k :: 0 <= k < m ==> NextGoesTo(operations, k, steps, n, r)
    ensures Joined(operations, m, steps, n + 1)
            == if r < m then Joined(operations, m, steps, n) + [steps[n]] else Joined(operations, m, steps, n)
  {
    if m > 0 {
      JoinedNext(operations, m - 1, steps, n, r);
      assert NextGoesTo(operations, m - 1, steps, n, r);
      if r < m {
        var before, own := Joined(operations, m - 1, steps, n), Of(steps, n, operations[m - 1].id);
        var before', own' := Joined(operations, m - 1, steps, n + 1), Of(steps, n + 1, operations[m - 1].id);
        AtTheEnd(before, own, steps[n], before', own');
      }
    }
  }

  /** A step whose Operation is the latest so far goes to the end. */
  lemma LastStep(operations: seq<Operation>, steps: seq<Step>, n: nat)
    requires n < |steps| && DistinctIds(operations) && Covered(operations, steps) && RankedTo(operations, steps, n + 1)
    ensures Joined(operations, |operations|, steps, n + 1) == Joined(operations, |operations|, steps, n) + [steps[n]]
  {
    forall k | 0 <= k < |operations| ensures NextGoesTo(operations, k, steps, n, Rank(operations, steps[n])) {
      NextBundle(operations, k, steps, n);
    }
    JoinedNext(operations, |operations|, steps, n, Rank(operations, steps[n]));
  }

  lemma {:induction false} JoinedInOrder(operations: seq<Operation>, steps: seq<Step>, n: nat)
    requires n <= |steps| && DistinctIds(operations) && Covered(operations, steps) && RankedTo(operations, steps, n)
    ensures Joined(operations, |operations|, steps, n) == steps[..n]
  {
    if n == 0 {
      NothingJoined(operations, |operations|, steps);
    } else {
      JoinedInOrder(operations, steps, n - 1);
      LastStep(operations, steps, n - 1);
      assert steps[..n] == steps[..n - 1] + [steps[n - 1]];
    }
  }

  ghost predicate OfRank(operations: seq<Operation>, steps: seq<Step>, k: nat) {
    forall i :: 0 <= i < |steps| ==> Rank(operations, steps[i]) == k
  }

  ghost predicate BelowRank(operations: seq<Operation>, steps: seq<Step>, k: nat) {
    forall i :: 0 <= i < |steps| ==> Rank(operations, steps[i]) < k
  }

  lemma {:induction false} OfHasRank(operations: seq<Operation>, k: nat, steps: seq<Step>, n: nat)
    requires DistinctIds(operations) && k < |operations| && n <= |steps|
    ensures OfRank(operations, Of(steps, n, operations[k].id), k)
  {
    if n > 0 {
      OfHasRank(operations, k, steps, n - 1);
      MoreOf(operations, k, steps, n - 1);
    }
  }

  lemma RankedAppend(operations: seq<Operation>, before: seq<Step>, own: seq<Step>, k: nat)
    requires Ranked(operations, before) && BelowRank(operations, before, k) && OfRank(operations, own, k)
    ensures Ranked(operations, before + own) && BelowRank(operations, before + own, k + 1)
  {
    var all := before + own;
    assert forall i :: 0 <= i < |before| ==> all[i] == before[i];
    assert forall i :: |before| <= i < |all| ==> all[i] == own[i - |before|];
  }

  lemma {:induction false} JoinedIsRanked(operations: seq<Operation>, m: nat, steps: seq<Step>, n: nat)
    requires m <= |operations| && n <= |steps| && DistinctIds(operations)
    ensures Ranked(operations, Joined(operations, m, steps, n))
    ensures BelowRank(operations, Joined(operations, m, steps, n), m)
  {
    if m > 0 {
      JoinedIsRanked(operations, m - 1, steps, n);
      OfHasRank(operations, m - 1, steps, n);
      RankedAppend(operations, Joined(operations, m - 1, steps, n), Of(steps, n, operations[m - 1].id), m - 1);
    }
  }

  /** Read one after the other the bundles give the steps back exactly when no step comes before a step
      of an earlier Operation. */
  lemma BundlesGiveStepsBack(operations: seq<Operation>, steps: seq<Step>)
    requires DistinctIds(operations) && Covered(operations, steps)
    ensures Joined(operations, |operations|, steps, |steps|) == steps <==> Ranked(operations, steps)
  {
    JoinedIsRanked(operations, |operations|, steps, |steps|);
    if Ranked(operations, steps) {
      JoinedInOrder(operations, steps, |steps|);
      assert steps[..|steps|] == steps;
    }
  }

  // ----------------------------------------------------------- consecutive ranges

  predicate Consecutive(operations: seq<Operation>) {
    && (forall k :: 0 <= k < |operations| ==> operations[k].first <= operations[k].last)
    && (forall k :: 0 < k < |operations| ==> operations[k].first == operations[k - 1].last + 1)
  }

  lemma {:induction false} RangesAscend(operations: seq<Operation>, j: nat, k: nat)
    requires Consecutive(operations) && j < k < |operations|
    ensures operations[j].last < operations[k].first
  {
    if j + 1 < k {
      RangesAscend(operations, j, k - 1);
    }
  }

  /** Steps in sequence order, each within its Operation's range. */
  ghost predicate InRange(operations: seq<Operation>, steps: seq<Step>) {
    && Covered(operations, steps)
    && (forall i :: 0 <= i < |steps| ==>
          var op := operations[Rank(operations, steps[i])]; op.first <= steps[i].sequence <= op.last)
    && (forall i, j :: 0 <= i < j < |steps| ==> steps[i].sequence <= steps[j].sequence)
  }

  /** Consecutive ranges keep the steps in order. */
  lemma ConsecutiveRangesKeepOrder(operations: seq<Operation>, steps: seq<Step>)
    requires DistinctIds(operations) && Consecutive(operations) && InRange(operations, steps)
    ensures Joined(operations, |operations|, steps, |steps|) == steps
  {
    forall i, j | 0 <= i < j < |steps| ensures Rank(operations, steps[i]) <= Rank(operations, steps[j]) {
      var a, b := Rank(operations, steps[i]), Rank(operations, steps[j]);
      if b < a {
        RangesAscend(operations, b, a);
      }
    }
    BundlesGiveStepsBack(operations, steps);
  }
}
