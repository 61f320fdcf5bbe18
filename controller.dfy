/**
 * The firmware's main loop as it runs: the module-level variables `on`,
 * `lastA`, `lastB` and `sliderValue` become fields of a `Controller`, the
 * UART becomes the log `wire` of everything written to it, and one pass of
 * `while True` is the method `Tick`, proved to do what `ControlLoop.Step`
 * specifies.
 */
module Controller {
  import opened Wrappers
  import opened Midi
  import opened Slider
  import opened ControlLoop

  class Controller {
    /** The variant's slider value above the calibration range. */
    const aboveMax: nat

    var on: bool
    var lastA: bool
    var lastB: bool
    /** `sliderValue`; None while the Python variable is still unbound. */
    var sliderValue: Option<nat>
    /** Set when a pass raised NameError; the program has stopped. */
    var crashed: bool
    /** Every message handed to `uart.write`, in order. */
    var wire: seq<Bytes>

    /** Between passes, `lastA` is always cleared. */
    ghost predicate Valid()
      reads this
    {
      !lastA
    }

    /** The part of the variables that carries over to the next pass. */
    function Snapshot(): State
      reads this
    {
      State(on, lastB, sliderValue)
    }

    /** The variables as the program initialises them before the loop. */
    constructor (aboveMax: nat)
      ensures Valid() && this.aboveMax == aboveMax
      ensures Snapshot() == Boot && !crashed && wire == []
    {
      this.aboveMax := aboveMax;
      on, lastA, lastB := false, false, false;
      sliderValue := None;
      crashed := false;
      wire := [];
    }

    /** `uart.write`, reached only when the encoder built a message. */
    method Send(msg: Option<Bytes>)
      modifies this`wire
      ensures wire == old(wire) + Written(msg)
    {
      if msg.Some? {
        wire := wire + [msg.value];
      }
    }

    /**
     * The Button-A busy-wait: read the button, and while it reads pressed,
     * read it again and set `lastA`.  `consumed` is the number of readings
     * taken, ending with the first "released" one.
     */
    method PollButtonA(readings: seq<bool>) returns (consumed: nat)
      requires false in readings
      modifies this`lastA
      ensures 0 < consumed <= |readings| && !readings[consumed - 1]
      ensures forall i :: 0 <= i < consumed - 1 ==> readings[i]
      ensures lastA == (old(lastA) || readings[0])
    {
      var a := readings[0];
      consumed := 1;
      while a
        invariant 1 <= consumed <= |readings|
        invariant a == readings[consumed - 1]
        invariant forall i :: 0 <= i < consumed - 1 ==> readings[i]
        invariant false in readings[consumed - 1..]
        invariant lastA == (old(lastA) || consumed > 1)
        decreases |readings| - consumed
      {
        assert false in readings[consumed..] by {
          assert readings[consumed - 1..] == [readings[consumed - 1]] + readings[consumed..];
        }
        a := readings[consumed];
        consumed := consumed + 1;
        lastA := true;
      }
    }

    /**
     * Button A: the busy-wait, then flip `on` if the button was held, then
     * clear `lastA`.
     */
    method ToggleMode(readings: seq<bool>)
      requires Valid() && false in readings
      modifies this`lastA, this`on
      ensures Valid() && on == (old(on) != readings[0])
    {
      var _ := PollButtonA(readings);
      if lastA {
        if !on {
          on := true;
        } else if on {
          on := false;
        }
      }
      lastA := false;
    }

    /** Button B: Note On on a press, Note Off on a release, then remember the reading. */
    method CheckButtonB(b: bool)
      modifies this`lastB, this`wire
      ensures lastB == b && wire == old(wire) + Written(NoteFor(old(lastB), b))
    {
      if b && !lastB {
        Send(MidiNoteOn(LOOP_CHANNEL, BUTTON_B_NOTE, NOTE_VELOCITY));
      } else if !b && lastB {
        Send(MidiNoteOff(LOOP_CHANNEL, BUTTON_B_NOTE, NOTE_VELOCITY));
      }
      lastB := b;
    }

    /**
     * The sensor branch: map the distance onto the slider and send it as a
     * CC; with the slider still unbound the send raises NameError.
     */
    method SendSlider(distCm: int)
      modifies this`sliderValue, this`crashed, this`wire
      ensures sliderValue == SliderValue(aboveMax, distCm, old(sliderValue))
      ensures crashed == (old(crashed) || sliderValue.None?)
      ensures wire == old(wire) + ControlChangeFor(true, sliderValue)
    {
      sliderValue := SliderValue(aboveMax, distCm, sliderValue);
      if sliderValue.None? {
        crashed := true;
      } else {
        Send(MidiControlChange(LOOP_CHANNEL, SLIDER_CONTROLLER, sliderValue.value));
      }
    }

    /** One pass of `while True` (the display and the 100 ms sleep are not modelled). */
    method Tick(t: TickInput)
      requires Valid() && !crashed && Releases(t)
      modifies this
      ensures Valid()
      ensures var o := Step(aboveMax, old(Snapshot()), t);
        Snapshot() == o.next && wire == old(wire) + o.sent && crashed == o.crashed
    {
      ToggleMode(t.aReadings);
      CheckButtonB(t.b);
      if on {
        SendSlider(t.distCm);
      }
    }

    /**
     * The `while True` loop over a finite sequence of passes, stopping early
     * when a pass raises NameError; `ran` is the number of passes executed.
     */
    method RunTicks(ticks: seq<TickInput>) returns (ran: nat)
      requires Valid() && !crashed && AllRelease(ticks)
      modifies this
      ensures Valid()
      ensures var r := Run(aboveMax, old(Snapshot()), ticks);
        Snapshot() == r.final && wire == old(wire) + r.sent && crashed == r.crashed && ran == r.ticksRun
    {
      ghost var start := Snapshot();
      ghost var done: seq<Bytes> := [];
      ran := 0;
      RunSoFarStart(aboveMax, start, ticks);
      while ran < |ticks| && !crashed
        invariant Valid() && wire == old(wire) + done
        invariant RunSoFar(aboveMax, start, ticks, ran, Snapshot(), done, crashed)
        decreases |ticks| - ran
      {
        RunSoFarStep(aboveMax, start, ticks, ran, Snapshot(), done);
        ghost var o := Step(aboveMax, Snapshot(), ticks[ran]);
        Tick(ticks[ran]);
        done := done + o.sent;
        ran := ran + 1;
      }
      RunSoFarDone(aboveMax, start, ticks, ran, Snapshot(), done, crashed);
    }
  }
}
