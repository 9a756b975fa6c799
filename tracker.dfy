/**
 * TaskStepTracker: maps N discrete steps, plus a fraction of the current
 * step, onto one overall completion value. Doubles are modelled as exact
 * reals; wall-clock readings are passed in as `now`.
 */
module StepTracker {
  import opened Common

  /** The progress fields of a tracker: step count, current step, fraction of the current step. */
  datatype Progress = Progress(stepCount: int, currentStep: int, stepPercent: real)

  /** What a tracker's progress fields always satisfy: at least one step, current step within 0..N+1. */
  predicate WellFormed(p: Progress)
  {
    p.stepCount >= 1 && 0 <= p.currentStep <= p.stepCount + 1
  }

  predicate InUnit(x: real)
  {
    0.0 <= x <= 1.0
  }

  /** The state of a freshly constructed tracker. */
  function Fresh(n: int): (p: Progress)
    requires n >= 1
    ensures WellFormed(p) && Overall(p) == 0.0
  {
    Progress(n, 0, 0.0)
  }

  /** `startNextStep(percent)`: advance unless already past the last step; the percent is taken as given. */
  function NextStep(p: Progress, percent: real): (r: Progress)
  {
    if p.currentStep <= p.stepCount then
      var next := p.currentStep + 1;
      Progress(p.stepCount, next, if next > p.stepCount then 0.0 else percent)
    else p
  }

  /** `completeStep()`: lift the current step to at least 1, then start the next step at 0. */
  function FinishStep(p: Progress): (r: Progress)
  {
    NextStep(p.(currentStep := if p.currentStep < 1 then 1 else p.currentStep), 0.0)
  }

  /** The clamp `setStepPercentComplete` applies to its argument. */
  function Clamp(x: real): (r: real)
    ensures InUnit(r)
    ensures InUnit(x) ==> r == x
  {
    if x < 0.0 then 0.0 else if x > 1.0 then 1.0 else x
  }

  /** `setStepPercentComplete(percent)`. */
  function SetStepPercent(p: Progress, percent: real): (r: Progress)
  {
    Progress(p.stepCount, if p.currentStep < 1 then 1 else p.currentStep, Clamp(percent))
  }

  /** `getOverallPercentComplete()`. */
  function Overall(p: Progress): real
    requires p.stepCount >= 1
  {
    if p.currentStep < 1 then 0.0
    else if p.currentStep > p.stepCount then 1.0
    else (p.currentStep - 1) as real / p.stepCount as real + p.stepPercent / p.stepCount as real
  }

  /** `k` calls of `completeStep()` in a row. */
  function FinishSteps(p: Progress, k: nat): (r: Progress)
    ensures r.stepCount == p.stepCount
    decreases k
  {
    if k == 0 then p else FinishSteps(FinishStep(p), k - 1)
  }

  function Min(a: int, b: int): int
  {
    if a <= b then a else b
  }

  // ---------------------------------------------------------------------
  // Properties of the progress state machine

  lemma StepOperationsKeepWellFormed(p: Progress, percent: real)
    requires WellFormed(p)
    ensures WellFormed(NextStep(p, percent))
    ensures WellFormed(FinishStep(p))
    ensures WellFormed(SetStepPercent(p, percent))
    ensures NextStep(p, percent).stepCount == p.stepCount
    ensures FinishStep(p).stepCount == p.stepCount
    ensures SetStepPercent(p, percent).stepCount == p.stepCount
  {
  }

  /** After `k` completed steps from a fresh tracker the current step is k+1, capped at N+1, and the fraction is 0. */
  lemma {:induction false} CompleteStepsFromFresh(n: int, k: nat)
    requires n >= 1
    ensures FinishSteps(Fresh(n), k) == Progress(n, if k == 0 then 0 else Min(k + 1, n + 1), 0.0)
  {
    if k > 0 {
      assert FinishStep(Fresh(n)) == Progress(n, 2, 0.0);
      CompleteStepsFrom(n, 2, k - 1);
    }
  }

  lemma {:induction false} CompleteStepsFrom(n: int, c: int, k: nat)
    requires n >= 1 && 2 <= c <= n + 1
    ensures FinishSteps(Progress(n, c, 0.0), k) == Progress(n, Min(c + k, n + 1), 0.0)
    decreases k
  {
    if k > 0 {
      var next := FinishStep(Progress(n, c, 0.0));
      assert next == Progress(n, Min(c + 1, n + 1), 0.0);
      CompleteStepsFrom(n, Min(c + 1, n + 1), k - 1);
    }
  }

  /** A fresh tracker driven by `k <= N` calls of `completeStep()` reports exactly k/N. */
  lemma OverallAfterCompletedSteps(n: int, k: nat)
    requires n >= 1 && k <= n
    ensures Overall(FinishSteps(Fresh(n), k)) == k as real / n as real
  {
    CompleteStepsFromFresh(n, k);
    var p := FinishSteps(Fresh(n), k);
    var r := n as real;
    assert 0.0 / r == 0.0;
    if k == n {
      assert p.currentStep == n + 1;
      assert r / r == 1.0;
    } else if k > 0 {
      assert p == Progress(n, k + 1, 0.0);
      assert Overall(p) == k as real / r + 0.0 / r;
    }
  }

  /** At least N calls of `completeStep()` on a fresh tracker report 1, and so do any further calls. */
  lemma OverallAfterAllSteps(n: int, k: nat)
    requires n >= 1 && k >= n
    ensures Overall(FinishSteps(Fresh(n), k)) == 1.0
    ensures FinishStep(FinishSteps(Fresh(n), k)) == FinishSteps(Fresh(n), k)
  {
    CompleteStepsFromFresh(n, k);
  }

  /** Once past the last step, `completeStep()` changes nothing and the overall value stays 1. */
  lemma CompleteStepSaturates(p: Progress)
    requires WellFormed(p) && p.currentStep == p.stepCount + 1
    ensures FinishStep(p) == p
    ensures Overall(p) == 1.0
  {
  }

  /** `setStepPercentComplete` clamps into [0,1], raises the step to at least 1 and otherwise leaves it alone. */
  lemma SetStepPercentEffect(p: Progress, percent: real)
    ensures InUnit(SetStepPercent(p, percent).stepPercent)
    ensures SetStepPercent(p, percent).currentStep == if p.currentStep < 1 then 1 else p.currentStep
    ensures percent < 0.0 ==> SetStepPercent(p, percent).stepPercent == 0.0
    ensures percent > 1.0 ==> SetStepPercent(p, percent).stepPercent == 1.0
    ensures InUnit(percent) ==> SetStepPercent(p, percent).stepPercent == percent
  {
  }

  /** Within a step, the overall value is (step-1)/N plus the clamped fraction over N. */
  lemma OverallAfterSetStepPercent(p: Progress, percent: real)
    requires WellFormed(p) && p.currentStep <= p.stepCount
    ensures var c := if p.currentStep < 1 then 1 else p.currentStep;
      Overall(SetStepPercent(p, percent))
        == (c - 1) as real / p.stepCount as real + Clamp(percent) / p.stepCount as real
  {
  }

  lemma DivideMonotone(a: real, b: real, n: real)
    requires n > 0.0 && a <= b
    ensures a / n <= b / n
  {
  }

  /** With a fraction in [0,1], the overall value lies in [0,1]. */
  lemma OverallInUnit(p: Progress)
    requires WellFormed(p) && InUnit(p.stepPercent)
    ensures InUnit(Overall(p))
  {
    if 1 <= p.currentStep <= p.stepCount {
      var n := p.stepCount as real;
      var a := (p.currentStep - 1) as real;
      assert (a / n) + (p.stepPercent / n) == (a + p.stepPercent) / n;
      DivideMonotone(a + p.stepPercent, n, n);
      DivideMonotone(0.0, a + p.stepPercent, n);
    }
  }

  /** With a fraction in [0,1], `completeStep()` never lowers the overall value, and keeps the fraction in [0,1]. */
  lemma CompleteStepMonotone(p: Progress)
    requires WellFormed(p) && InUnit(p.stepPercent)
    ensures InUnit(FinishStep(p).stepPercent)
    ensures Overall(p) <= Overall(FinishStep(p))
  {
    var q := FinishStep(p);
    OverallInUnit(p);
    if 1 <= p.currentStep && q.currentStep <= q.stepCount {
      var n := p.stepCount as real;
      var a := (p.currentStep - 1) as real;
      assert Overall(p) == (a + p.stepPercent) / n;
      assert Overall(q) == (a + 1.0) / n;
      DivideMonotone(a + p.stepPercent, a + 1.0, n);
    }
  }

  /** `startNextStep` does not clamp: a percent above 1 pushes the overall value above 1. */
  lemma StartNextStepCanExceedOne()
    ensures var p := Progress(2, 1, 0.0);
      WellFormed(p) && InUnit(Overall(p)) && Overall(NextStep(p, 2.0)) > 1.0
  {
    var q := NextStep(Progress(2, 1, 0.0), 2.0);
    assert q == Progress(2, 2, 2.0);
    assert Overall(q) == 1.0 / 2.0 + 2.0 / 2.0;
  }

  // ---------------------------------------------------------------------
  // The mutable tracker

  class TaskStepTracker {
    const stepCount: int
    var currentStep: int
    var stepPercentComplete: real
    var message: Option<string>
    var startedDate: Option<int>
    var completedDate: Option<int>

    function State(): Progress
      reads this
    {
      Progress(stepCount, currentStep, stepPercentComplete)
    }

    predicate Valid()
      reads this
    {
      WellFormed(State())
    }

    constructor Init(n: int)
      requires n >= 1
      ensures Valid() && State() == Fresh(n)
      ensures message == None && startedDate == None && completedDate == None
    {
      stepCount := n;
      currentStep := 0;
      stepPercentComplete := 0.0;
      message := None;
      startedDate := None;
      completedDate := None;
    }

    /** The constructor: a step count below 1 is rejected with IllegalArgumentException. */
    static method Create(n: int) returns (r: Result<TaskStepTracker>)
      ensures r.Err? <==> n < 1
      ensures r.Err? ==> r.error == Failure("IllegalArgumentException", Some("Step count must be > 0"))
      ensures r.Ok? ==> fresh(r.value) && r.value.Valid() && r.value.State() == Fresh(n)
      ensures r.Ok? ==> r.value.startedDate == None && r.value.completedDate == None
    {
      if n < 1 {
        return Err(Failure("IllegalArgumentException", Some("Step count must be > 0")));
      }
      var t := new TaskStepTracker.Init(n);
      return Ok(t);
    }

    method StartNextStep(percent: real)
      requires Valid()
      modifies this
      ensures Valid() && State() == NextStep(old(State()), percent)
      ensures message == old(message) && startedDate == old(startedDate) && completedDate == old(completedDate)
    {
      if currentStep <= stepCount {
        currentStep := currentStep + 1;
        if currentStep > stepCount {
          stepPercentComplete := 0.0;
        } else {
          stepPercentComplete := percent;
        }
      }
    }

    method CompleteStep()
      requires Valid()
      modifies this
      ensures Valid() && State() == FinishStep(old(State()))
      ensures message == old(message) && startedDate == old(startedDate) && completedDate == old(completedDate)
    {
      if currentStep < 1 {
        currentStep := 1;
      }
      StartNextStep(0.0);
    }

    method SetStepPercentComplete(percent: real)
      requires Valid()
      modifies this
      ensures Valid() && State() == SetStepPercent(old(State()), percent)
      ensures message == old(message) && startedDate == old(startedDate) && completedDate == old(completedDate)
    {
      if currentStep < 1 {
        currentStep := 1;
      }
      var p := percent;
      if p < 0.0 {
        p := 0.0;
      } else if p > 1.0 {
        p := 1.0;
      }
      stepPercentComplete := p;
    }

    method GetOverallPercentComplete() returns (r: real)
      requires Valid()
      ensures r == Overall(State())
      ensures InUnit(stepPercentComplete) ==> InUnit(r)
    {
      if InUnit(stepPercentComplete) {
        OverallInUnit(State());
      }
      if currentStep < 1 {
        return 0.0;
      } else if currentStep > stepCount {
        return 1.0;
      }
      return (currentStep - 1) as real / stepCount as real + stepPercentComplete / stepCount as real;
    }

    method SetMessage(m: Option<string>)
      modifies this
      ensures message == m
      ensures State() == old(State()) && startedDate == old(startedDate) && completedDate == old(completedDate)
    {
      message := m;
    }

    /** `start()`: records the current time, overwriting any earlier start. */
    method Start(now: int)
      modifies this
      ensures startedDate == Some(now)
      ensures State() == old(State()) && message == old(message) && completedDate == old(completedDate)
    {
      startedDate := Some(now);
    }

    /** `complete()`: records the current time, overwriting any earlier completion. */
    method Complete(now: int)
      modifies this
      ensures completedDate == Some(now)
      ensures State() == old(State()) && message == old(message) && startedDate == old(startedDate)
    {
      completedDate := Some(now);
    }

    function IsStarted(): bool
      reads this
    {
      startedDate.Some?
    }

    function IsCompleted(): bool
      reads this
    {
      completedDate.Some?
    }
  }
}
