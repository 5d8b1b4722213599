/**
 * The step counter of app/components/algorithm-visualizer.tsx: the
 * `currentStep` and `totalSteps` state, reset to 0 by `resetVisualization`
 * and moved one step at a time by the step-forward and step-back buttons,
 * which never leave the range [0, totalSteps].
 */
module StepCursor {

  /** `stepForward`: one step on while below the total. */
  function Forward(current: int, total: int): (r: int)
    ensures 0 <= current <= total ==> 0 <= r <= total
    ensures current < total ==> r == current + 1
    ensures current >= total ==> r == current
  {
    if current < total then current + 1 else current
  }

  /** `stepBackward`: one step back while above 0. */
  function Backward(current: int): (r: int)
    ensures current >= 0 ==> r >= 0
    ensures current > 0 ==> r == current - 1
    ensures current <= 0 ==> r == current
  {
    if current > 0 then current - 1 else current
  }

  /** Stepping forward and then back returns to the same step, unless already at the end. */
  lemma BackwardUndoesForward(current: int, total: int)
    requires 0 <= current < total
    ensures Backward(Forward(current, total)) == current
  {
  }

  /** Stepping back and then forward returns to the same step, unless already at 0. */
  lemma ForwardUndoesBackward(current: int, total: int)
    requires 0 < current <= total
    ensures Forward(Backward(current), total) == current
  {
  }

  /** `k` steps forward from a step in range reach min(current + k, total). */
  lemma {:induction false} ForwardRepeatedly(current: int, total: int, k: nat)
    requires 0 <= current <= total
    ensures ForwardTimes(current, total, k) == if current + k <= total then current + k else total
    decreases k
  {
    if k > 0 {
      ForwardRepeatedly(Forward(current, total), total, k - 1);
    }
  }

  /** The step after `k` presses of the forward button. */
  function ForwardTimes(current: int, total: int, k: nat): int
    decreases k
  {
    if k == 0 then current else ForwardTimes(Forward(current, total), total, k - 1)
  }

  /** The visualizer's step state. */
  class Steps {
    var currentStep: int
    var totalSteps: int

    /** Both counters are non-negative and the current step is within the total. */
    predicate Valid()
      reads this
    {
      0 <= currentStep <= totalSteps
    }

    /** The initial state: both counters at 0. */
    constructor()
      ensures currentStep == 0 && totalSteps == 0 && Valid()
    {
      currentStep := 0;
      totalSteps := 0;
    }

    /** `resetVisualization`: both counters back to 0. */
    method Reset()
      modifies this
      ensures currentStep == 0 && totalSteps == 0 && Valid()
    {
      currentStep := 0;
      totalSteps := 0;
    }

    /** The step-forward button. */
    method StepForward()
      modifies this
      ensures totalSteps == old(totalSteps)
      ensures old(currentStep) < totalSteps ==> currentStep == old(currentStep) + 1
      ensures old(currentStep) >= totalSteps ==> currentStep == old(currentStep)
      ensures old(Valid()) ==> Valid()
    {
      if currentStep < totalSteps {
        currentStep := currentStep + 1;
      }
    }

    /** The step-back button. */
    method StepBackward()
      modifies this
      ensures totalSteps == old(totalSteps)
      ensures old(currentStep) > 0 ==> currentStep == old(currentStep) - 1
      ensures old(currentStep) <= 0 ==> currentStep == old(currentStep)
      ensures old(Valid()) ==> Valid()
    {
      if currentStep > 0 {
        currentStep := currentStep - 1;
      }
    }
  }
}
