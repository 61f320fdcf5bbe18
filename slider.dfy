/**
 * The distance-to-slider mapping of the control loop: a hand height
 * `dist_cm` becomes the value of the MIDI control-change slider.
 *
 * The calibration range is 73..127 cm.  Above the range the slider takes the
 * saturation value (127 in one firmware variant, 100 in the other), below it
 * 0, and strictly inside it `floor((d - 73) / 54 * 127)`.  The branches use
 * strict comparisons, so at exactly 73 and exactly 127 no branch assigns and
 * the previous slider value is kept; before any value has been assigned
 * there is none (`None`).
 */
module Slider {
  import opened Wrappers

  /** Lowest and highest hand height of the calibration range, in cm. */
  const MIN_HEIGHT: int := 73
  const MAX_HEIGHT: int := 127

  /** The top of the slider scale the interior is mapped onto. */
  const SCALE_TOP: nat := 127

  /** Width of the calibration range. */
  const SPAN: nat := 54

  /** True when `d` lies strictly inside the calibration range. */
  predicate Inside(d: int)
  {
    MIN_HEIGHT < d < MAX_HEIGHT
  }

  /** True when one of the three branches assigns a slider value for `d`. */
  predicate Assigns(d: int)
  {
    d != MIN_HEIGHT && d != MAX_HEIGHT
  }

  /**
   * The interior linear remap, in integer arithmetic: the greatest `v` with
   * `v * 54 <= (d - 73) * 127`.
   */
  function Scaled(d: int): (v: nat)
    requires Inside(d)
    ensures v * SPAN <= (d - MIN_HEIGHT) * SCALE_TOP < (v + 1) * SPAN
    ensures v < SCALE_TOP
  {
    ((d - MIN_HEIGHT) * SCALE_TOP) / (MAX_HEIGHT - MIN_HEIGHT)
  }

  /**
   * One evaluation of the slider branches for distance `d`: `aboveMax` is the
   * variant's saturation value and `prev` the value the slider variable held
   * before (None while it has never been assigned).
   */
  function SliderValue(aboveMax: nat, d: int, prev: Option<nat>): (r: Option<nat>)
    ensures Assigns(d) ==> r.Some?
    ensures !Assigns(d) ==> r == prev
  {
    if d > MAX_HEIGHT then Some(aboveMax)
    else if d < MIN_HEIGHT then Some(0)
    else if d < MAX_HEIGHT && d > MIN_HEIGHT then Some(Scaled(d))
    else prev
  }

  /**
   * The firmware computes the interior value in floating point as
   * `floor((d - 73) / 54 * 127)`.  Over the exact rationals that floor is the
   * integer quotient `Scaled(d)`.
   */
  lemma ScaledIsExactFloor(d: int)
    requires Inside(d)
    ensures ((d - MIN_HEIGHT) as real / (MAX_HEIGHT - MIN_HEIGHT) as real * SCALE_TOP as real).Floor == Scaled(d)
  {
    var k := d - MIN_HEIGHT;
    var v := Scaled(d);
    var x := k as real / 54.0 * 127.0;
    assert x == (k * 127) as real / 54.0;
    assert v as real <= x < (v + 1) as real by {
      assert (v * 54) as real <= (k * 127) as real < ((v + 1) * 54) as real;
    }
  }

  /**
   * Inside the range the exact quotient `(d - 73) * 127 / 54` is never a whole
   * number (127 is prime and `0 < d - 73 < 54`): it keeps a distance of at
   * least 1/54 from every integer, so a floating-point rounding error far
   * smaller than that cannot move the floor.
   */
  lemma QuotientNeverWhole(d: int)
    requires Inside(d)
    ensures ((d - MIN_HEIGHT) * SCALE_TOP) % SPAN != 0
  {
  }

  /** The interior remap never decreases as the hand moves up. */
  lemma {:induction false} ScaledMonotone(d1: int, d2: int)
    requires Inside(d1) && Inside(d2) && d1 <= d2
    ensures Scaled(d1) <= Scaled(d2)
  {
    var v1, v2 := Scaled(d1), Scaled(d2);
    assert v1 * SPAN <= (d2 - MIN_HEIGHT) * SCALE_TOP by {
      assert (d1 - MIN_HEIGHT) * SCALE_TOP <= (d2 - MIN_HEIGHT) * SCALE_TOP;
    }
  }

  /** The largest value the interior can produce: 124, at 126 cm. */
  lemma ScaledAtMost124(d: int)
    requires Inside(d)
    ensures Scaled(d) <= Scaled(MAX_HEIGHT - 1) == 124
  {
    ScaledMonotone(d, MAX_HEIGHT - 1);
  }

  /** The mapping, wherever it assigns, is non-decreasing in the distance. */
  ghost predicate Monotone(aboveMax: nat)
  {
    forall d1: int, d2: int ::
      Assigns(d1) && Assigns(d2) && d1 <= d2 ==>
        SliderValue(aboveMax, d1, None).value <= SliderValue(aboveMax, d2, None).value
  }

  /**
   * Both directions: the mapping is monotone exactly when the saturation value
   * is at least the largest interior value, 124.  So the variant saturating at
   * 127 is monotone and the variant saturating at 100 is not.
   */
  lemma MonotoneIff(aboveMax: nat)
    ensures Monotone(aboveMax) <==> aboveMax >= 124
  {
    if aboveMax >= 124 {
      forall d1: int, d2: int | Assigns(d1) && Assigns(d2) && d1 <= d2
        ensures SliderValue(aboveMax, d1, None).value <= SliderValue(aboveMax, d2, None).value
      {
        if Inside(d1) && Inside(d2) {
          ScaledMonotone(d1, d2);
        } else if Inside(d1) {
          ScaledAtMost124(d1);
        }
      }
    } else {
      assert SliderValue(aboveMax, 126, None).value == 124;
      assert SliderValue(aboveMax, 128, None).value == aboveMax;
    }
  }

  /** Every assigned value lies between 0 and the larger of 124 and the saturation value. */
  lemma SliderBounds(aboveMax: nat, d: int, prev: Option<nat>)
    requires Assigns(d)
    ensures SliderValue(aboveMax, d, prev).value <= if aboveMax >= 124 then aboveMax else 124
  {
    if Inside(d) {
      ScaledAtMost124(d);
    }
  }
}
