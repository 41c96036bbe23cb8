/** The fixed-timestep accumulator of `World.prototype.update`: how many ticks
    one call runs and what time is left over. */
module FixedStep {
  /** What is left of `total` after `k` ticks of `timeStep`. */
  function Leftover(total: real, k: nat, timeStep: real): real {
    total - k as real * timeStep
  }

  /** One more tick takes one more time step off. */
  lemma LeftoverNext(total: real, k: nat, timeStep: real)
    ensures Leftover(total, k + 1, timeStep) == Leftover(total, k, timeStep) - timeStep
  {
  }

  lemma MulLess(a: real, b: real, c: real)
    requires a < b && c > 0.0
    ensures a * c < b * c
  {
  }

  lemma MulAtMost(a: real, b: real, c: real)
    requires a <= b && c > 0.0
    ensures a * c <= b * c
  {
  }

  lemma LeftoverAntitone(total: real, i: nat, j: nat, timeStep: real)
    requires timeStep > 0.0
    ensures i <= j ==> Leftover(total, j, timeStep) <= Leftover(total, i, timeStep)
  {
    if i <= j {
      MulAtMost(i as real, j as real, timeStep);
    }
  }

  /** How many times `while (remaining >= timeStep) remaining -= timeStep`
      runs its body when it starts from `total`: the least count after which
      less than one step is left. */
  function StepCount(total: real, timeStep: real): (k: nat)
    requires timeStep > 0.0
    ensures Leftover(total, k, timeStep) < timeStep
    ensures forall j: nat :: j < k ==> Leftover(total, j, timeStep) >= timeStep
  {
    if total < timeStep then 0
    else
      var q := total / timeStep;
      var k := q.Floor;
      assert total == q * timeStep;
      assert k as real <= q < k as real + 1.0;
      MulLess(q, k as real + 1.0, timeStep);
      assert total < (k as real + 1.0) * timeStep;
      assert (k as real + 1.0) * timeStep == k as real * timeStep + timeStep;
      assert Leftover(total, k, timeStep) < timeStep;
      MulAtMost(k as real, q, timeStep);
      forall j: nat | j < k ensures Leftover(total, j, timeStep) >= timeStep {
        MulAtMost(j as real, (k - 1) as real, timeStep);
      }
      k
  }

  /** A count with both properties is the step count. */
  lemma StepCountUnique(total: real, timeStep: real, k: nat)
    requires timeStep > 0.0
    requires Leftover(total, k, timeStep) < timeStep
    requires k > 0 ==> Leftover(total, k - 1, timeStep) >= timeStep
    ensures k == StepCount(total, timeStep)
  {
    var c := StepCount(total, timeStep);
    if k > 0 {
      LeftoverAntitone(total, c, k - 1, timeStep);
    }
  }

  /** The accumulated time `update(dt)` leaves over, starting from `remaining`. */
  function RemainingAfter(remaining: real, dt: real, timeStep: real): (r: real)
    requires timeStep > 0.0
    ensures r < timeStep
  {
    Leftover(remaining + dt, StepCount(remaining + dt, timeStep), timeStep)
  }

  /** Splitting one frame time into two calls of `update` runs the same number
      of ticks in total and leaves the same time over, as long as the second
      part is not negative. */
  lemma {:induction false} SplitUpdate(remaining: real, a: real, b: real, timeStep: real)
    requires timeStep > 0.0 && b >= 0.0
    ensures StepCount(remaining + a, timeStep) + StepCount(RemainingAfter(remaining, a, timeStep) + b, timeStep)
            == StepCount(remaining + a + b, timeStep)
    ensures RemainingAfter(RemainingAfter(remaining, a, timeStep), b, timeStep)
            == RemainingAfter(remaining, a + b, timeStep)
  {
    var k1 := StepCount(remaining + a, timeStep);
    var r1 := Leftover(remaining + a, k1, timeStep);
    var k2 := StepCount(r1 + b, timeStep);
    var t := remaining + a + b;
    var k := k1 + k2;
    assert Leftover(t, k, timeStep) == Leftover(r1 + b, k2, timeStep);
    if k > 0 {
      if k2 > 0 {
        assert Leftover(t, k - 1, timeStep) == Leftover(r1 + b, k2 - 1, timeStep);
      } else {
        assert Leftover(t, k - 1, timeStep) == Leftover(remaining + a, k1 - 1, timeStep) + b;
      }
    }
    StepCountUnique(t, timeStep, k);
  }
}
