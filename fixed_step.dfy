/** The fixed time step both hosts run the simulation with. Time is kept as
    sf::Time keeps it, in whole microseconds, so the frame length
    sf::seconds(1/60) is 16666 microseconds (the conversion truncates) and
    each physics tick is given 16666/1000000 seconds. */
module FixedStep {
  const TIME_PER_FRAME: nat := 16666
  const FRAME_SECONDS: real := 16666.0 / 1000000.0

  /** main.cpp: ticks while the accumulated time is at least one frame. */
  function StepsInclusive(acc: nat): (n: nat)
    ensures n * TIME_PER_FRAME <= acc < (n + 1) * TIME_PER_FRAME
  {
    acc / TIME_PER_FRAME
  }

  /** Game.cpp: ticks while the accumulated time is more than one frame. */
  function StepsStrict(acc: nat): (n: nat)
    ensures acc == 0 ==> n == 0
    ensures acc > 0 ==> n * TIME_PER_FRAME < acc <= (n + 1) * TIME_PER_FRAME
  {
    if acc == 0 then 0 else (acc - 1) / TIME_PER_FRAME
  }

  /** What one loop leaves accumulated after its ticks. */
  function LeftInclusive(acc: nat): (r: nat)
    ensures r < TIME_PER_FRAME
    ensures acc == StepsInclusive(acc) * TIME_PER_FRAME + r
  {
    acc - StepsInclusive(acc) * TIME_PER_FRAME
  }

  function LeftStrict(acc: nat): (r: nat)
    ensures r <= TIME_PER_FRAME && (acc > 0 ==> r > 0)
    ensures acc == StepsStrict(acc) * TIME_PER_FRAME + r
  {
    acc - StepsStrict(acc) * TIME_PER_FRAME
  }

  /** The two loops differ exactly on whole multiples of the frame: there
      the strict loop leaves one full frame pending. */
  lemma StrictLagsOnMultiples(k: nat)
    requires k > 0
    ensures StepsInclusive(k * TIME_PER_FRAME) == k
    ensures StepsStrict(k * TIME_PER_FRAME) == k - 1
    ensures LeftStrict(k * TIME_PER_FRAME) == TIME_PER_FRAME
  {
    StepsUnique(k * TIME_PER_FRAME, k, StepsInclusive(k * TIME_PER_FRAME));
    StepsUnique(k * TIME_PER_FRAME - 1, k - 1, StepsStrict(k * TIME_PER_FRAME));
  }

  /** Away from multiples of the frame the two loops tick alike. */
  lemma LoopsAgreeOffMultiples(acc: nat)
    requires acc % TIME_PER_FRAME != 0
    ensures StepsStrict(acc) == StepsInclusive(acc)
  {
    var n := StepsInclusive(acc);
    assert acc == n * TIME_PER_FRAME + acc % TIME_PER_FRAME;
    StepsUnique(acc - 1, n, StepsStrict(acc));
  }

  /** At most one count of frames fits an amount of time. */
  lemma StepsUnique(acc: nat, n: nat, m: nat)
    requires n * TIME_PER_FRAME <= acc < (n + 1) * TIME_PER_FRAME
    requires m * TIME_PER_FRAME <= acc < (m + 1) * TIME_PER_FRAME
    ensures n == m
  {
  }
}
