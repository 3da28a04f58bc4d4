/**
 * The final grade of an evaluation run: a half-step grade between 2 and 5
 * computed from the recognition accuracy (percent) and the processing time
 * per 100 images (seconds).  Two versions exist: the Java service, which
 * clamps the time term and rounds half up, and the stand-alone script, which
 * does neither clamping nor half-up rounding.  Both are modelled over exact
 * reals.
 */
module Grading {

  /** A value that is a whole multiple of one half. */
  predicate IsHalfStep(g: real) {
    (2.0 * g).Floor as real == 2.0 * g
  }

  /** Java's Math.round: the nearest integer, ties towards positive infinity. */
  function RoundHalfUp(x: real): (r: int)
    ensures x - 0.5 < r as real <= x + 0.5
  {
    (x + 0.5).Floor
  }

  /** Python's round: the nearest integer, ties to the even neighbour. */
  function RoundHalfEven(x: real): (r: int)
    ensures x - 0.5 <= r as real <= x + 0.5
    ensures (r as real == x - 0.5 || r as real == x + 0.5) ==> r % 2 == 0
  {
    var f := x.Floor;
    var d := x - f as real;
    if d < 0.5 then f
    else if d > 0.5 then f + 1
    else if f % 2 == 0 then f
    else f + 1
  }

  /** Half-up rounding never decreases as its argument grows. */
  lemma RoundHalfUpMonotone(x: real, y: real)
    requires x <= y
    ensures RoundHalfUp(x) <= RoundHalfUp(y)
  {
  }

  /** Away from a tie both roundings pick the same nearest integer. */
  lemma RoundingsAgreeOffTies(x: real)
    requires (x + 0.5).Floor as real != x + 0.5
    ensures RoundHalfUp(x) == RoundHalfEven(x)
  {
  }

  /** Halving a rounded doubled value gives a half step within a quarter of
      the undoubled value. */
  lemma HalvedRounding(x: real, k: int)
    requires x - 0.5 <= k as real <= x + 0.5
    ensures IsHalfStep(k as real / 2.0)
    ensures x / 2.0 - 0.25 <= k as real / 2.0 <= x / 2.0 + 0.25
  {
    assert 2.0 * (k as real / 2.0) == k as real;
  }

  /** Failing either threshold yields the lowest grade. */
  predicate Gated(accuracy: real, time: real) {
    accuracy < 60.0 || time > 60.0
  }

  /** The time term of the Java service, clamped into [0, 1]. */
  function ClampedTimeNorm(time: real): (t: real)
    ensures 0.0 <= t <= 1.0
    ensures 10.0 <= time <= 60.0 ==> t == (60.0 - time) / 50.0
  {
    var t := (60.0 - time) / 50.0;
    if t < 0.0 then 0.0 else if t > 1.0 then 1.0 else t
  }

  /** The unrounded grade: 2 plus three times the weighted score. */
  function RawGrade(accuracy: real, timeNorm: real): real {
    2.0 + 3.0 * (0.7 * ((accuracy - 60.0) / 40.0) + 0.3 * timeNorm)
  }

  /** GradingService.calculateFinalGrade over exact reals. */
  function FinalGrade(accuracy: real, time: real): (g: real)
    ensures Gated(accuracy, time) ==> g == 2.0
    ensures IsHalfStep(g)
    ensures !Gated(accuracy, time) ==>
      var raw := RawGrade(accuracy, ClampedTimeNorm(time));
      raw - 0.25 < g <= raw + 0.25
    ensures !Gated(accuracy, time) && accuracy <= 100.0 ==> 2.0 <= g <= 5.0
    ensures accuracy == 100.0 && time <= 10.0 ==> g == 5.0
  {
    if Gated(accuracy, time) then 2.0
    else
      var raw := RawGrade(accuracy, ClampedTimeNorm(time));
      var k := RoundHalfUp(raw * 2.0);
      HalvedRounding(raw * 2.0, k);
      k as real / 2.0
  }

  /** More accuracy in less time never lowers the grade. */
  lemma FinalGradeMonotone(accuracy: real, time: real, accuracy': real, time': real)
    requires accuracy <= accuracy' && time' <= time
    ensures FinalGrade(accuracy, time) <= FinalGrade(accuracy', time')
  {
    if !Gated(accuracy, time) {
      var raw := RawGrade(accuracy, ClampedTimeNorm(time));
      var raw' := RawGrade(accuracy', ClampedTimeNorm(time'));
      assert raw <= raw';
      RoundHalfUpMonotone(raw * 2.0, raw' * 2.0);
    }
  }

  /** calculate_final_grade of the stand-alone script: the time term is not
      clamped and rounding is half to even. */
  function PythonGrade(accuracy: real, time: real): (g: real)
    ensures Gated(accuracy, time) ==> g == 2.0
    ensures IsHalfStep(g)
    ensures !Gated(accuracy, time) ==>
      var raw := RawGrade(accuracy, (60.0 - time) / 50.0);
      raw - 0.25 <= g <= raw + 0.25
  {
    if Gated(accuracy, time) then 2.0
    else
      var raw := RawGrade(accuracy, (60.0 - time) / 50.0);
      var k := RoundHalfEven(raw * 2.0);
      HalvedRounding(raw * 2.0, k);
      k as real / 2.0
  }

  /** When the time term needs no clamping and the doubled grade is not a
      tie, the two versions agree. */
  lemma GradesAgreeOffTies(accuracy: real, time: real)
    requires 10.0 <= time
    requires var x := RawGrade(accuracy, (60.0 - time) / 50.0) * 2.0;
      (x + 0.5).Floor as real != x + 0.5
    ensures FinalGrade(accuracy, time) == PythonGrade(accuracy, time)
  {
    if !Gated(accuracy, time) {
      RoundingsAgreeOffTies(RawGrade(accuracy, (60.0 - time) / 50.0) * 2.0);
    }
  }

  /** On a tie the versions part: a doubled grade of 8.5 rounds up to 4.5 in
      the service and down to 4.0 in the script. */
  lemma TieBreaksDiffer()
    ensures FinalGrade(100.0, 155.0 / 3.0) == 4.5
    ensures PythonGrade(100.0, 155.0 / 3.0) == 4.0
  {
    assert RawGrade(100.0, 1.0 / 6.0) * 2.0 == 8.5;
  }

  /** Under ten seconds the unclamped script rewards extra speed. */
  lemma UnclampedTimeDiffers()
    ensures FinalGrade(65.0, 0.0) == 3.0
    ensures PythonGrade(65.0, 0.0) == 3.5
  {
    assert RawGrade(65.0, 1.0) * 2.0 == 6.325;
    assert RawGrade(65.0, 1.2) * 2.0 == 6.685;
  }
}
