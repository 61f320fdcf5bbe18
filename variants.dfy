/**
 * The two firmware files as instances of the shared model: they differ only
 * in the slider value used above the calibration range.
 */
module MidiMove {
  import opened Wrappers
  import opened Midi
  import opened Slider
  import opened ControlLoop

  /** `sliderValue = 127` when the hand is above the calibration range. */
  const ABOVE_MAX: nat := 127

  /**
   * This variant's mapping saturates at the top of the CC scale, never
   * exceeds it, and never decreases as the hand moves up.
   */
  lemma SliderSaturatesAt127(d: int, prev: Option<nat>)
    ensures d > MAX_HEIGHT ==> SliderValue(ABOVE_MAX, d, prev) == Some(127)
    ensures d < MIN_HEIGHT ==> SliderValue(ABOVE_MAX, d, prev) == Some(0)
    ensures Assigns(d) ==> SliderValue(ABOVE_MAX, d, prev).value <= 127
    ensures Monotone(ABOVE_MAX)
  {
    MonotoneIff(ABOVE_MAX);
    if Assigns(d) {
      SliderBounds(ABOVE_MAX, d, prev);
    }
  }

  /**
   * After any run from power-on, a pass that ends with the sensor on and
   * does not stop the program writes exactly one CC on channel 0,
   * controller 24, as its last write; no CC is ever dropped.
   */
  lemma OneControlChangePerActivePass(ticks: seq<TickInput>, t: TickInput)
    requires AllRelease(ticks) && Releases(t)
    ensures var o := Step(ABOVE_MAX, Run(ABOVE_MAX, Boot, ticks).final, t);
      o.next.on && !o.crashed ==>
        o.next.slider.value <= MAX_DATA && CountKind(o.sent, 0xB) == 1
        && o.sent[|o.sent| - 1] == [0xB0, 24, o.next.slider.value as byte]
  {
    RunKeepsSendable(ABOVE_MAX, Boot, ticks);
    ControlChangeWhenOn(ABOVE_MAX, Run(ABOVE_MAX, Boot, ticks).final, t);
  }

  /**
   * Button B held over two passes and then released, with the sensor off:
   * exactly one Note On, then exactly one Note Off.
   */
  lemma HoldAndReleaseB()
    ensures var up := TickInput([false], false, 0);
            var down := TickInput([false], true, 0);
      Run(ABOVE_MAX, Boot, [down, down, up]).sent == [NOTE_ON_BYTES, NOTE_OFF_BYTES]
  {
    var up := TickInput([false], false, 0);
    var down := TickInput([false], true, 0);
    var pressed := State(false, true, None);
    assert Step(ABOVE_MAX, Boot, down) == Outcome(pressed, [NOTE_ON_BYTES], false);
    assert Step(ABOVE_MAX, pressed, down) == Outcome(pressed, [], false);
    assert Step(ABOVE_MAX, pressed, up) == Outcome(Boot, [NOTE_OFF_BYTES], false);
    assert [down, down, up][1..] == [down, up] && [down, up][1..] == [up] && [up][1..] == [];
    assert Run(ABOVE_MAX, pressed, [up]).sent == [NOTE_OFF_BYTES];
    assert Run(ABOVE_MAX, pressed, [down, up]).sent == [] + [NOTE_OFF_BYTES];
    assert Run(ABOVE_MAX, Boot, [down, down, up]).sent == [NOTE_ON_BYTES] + [NOTE_OFF_BYTES];
  }
}

module IamCode {
  import opened Wrappers
  import opened Midi
  import opened Slider
  import opened ControlLoop

  /** `sliderValue = 100` when the hand is above the calibration range. */
  const ABOVE_MAX: nat := 100

  /**
   * This variant's mapping is not monotone: 126 cm gives 124 but 128 cm gives
   * 100, so moving the hand out of the top of the range drops the slider.
   */
  lemma SliderNotMonotone(prev: Option<nat>)
    ensures SliderValue(ABOVE_MAX, 126, prev) == Some(124)
    ensures SliderValue(ABOVE_MAX, 128, prev) == Some(100)
    ensures !Monotone(ABOVE_MAX)
  {
    MonotoneIff(ABOVE_MAX);
  }

  /** Every value this variant assigns is at most 124, so it fits the CC range. */
  lemma SliderAtMost124(d: int, prev: Option<nat>)
    ensures d > MAX_HEIGHT ==> SliderValue(ABOVE_MAX, d, prev) == Some(100)
    ensures Assigns(d) ==> SliderValue(ABOVE_MAX, d, prev).value <= 124
  {
    if Assigns(d) {
      SliderBounds(ABOVE_MAX, d, prev);
    }
  }

  /**
   * After any run from power-on, a pass that ends with the sensor on and
   * does not stop the program writes exactly one CC on channel 0,
   * controller 24, as its last write.
   */
  lemma OneControlChangePerActivePass(ticks: seq<TickInput>, t: TickInput)
    requires AllRelease(ticks) && Releases(t)
    ensures var o := Step(ABOVE_MAX, Run(ABOVE_MAX, Boot, ticks).final, t);
      o.next.on && !o.crashed ==>
        o.next.slider.value <= MAX_DATA && CountKind(o.sent, 0xB) == 1
        && o.sent[|o.sent| - 1] == [0xB0, 24, o.next.slider.value as byte]
  {
    RunKeepsSendable(ABOVE_MAX, Boot, ticks);
    ControlChangeWhenOn(ABOVE_MAX, Run(ABOVE_MAX, Boot, ticks).final, t);
  }

  /**
   * Pressing Button A once from power-on switches the sensor on; a hand at
   * 73 cm on that very first active pass leaves the slider unbound and the
   * program stops (NameError), after the pass's note message, if any.
   */
  lemma FirstPassAtBoundaryStops(b: bool)
    ensures var o := Step(ABOVE_MAX, Boot, TickInput([true, false], b, MIN_HEIGHT));
      o.next.on && o.crashed && o.sent == Written(NoteFor(false, b))
  {
  }
}
