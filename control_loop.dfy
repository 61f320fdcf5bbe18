/**
 * The specification of one pass of the firmware's `while True` loop, and of a
 * finite run of passes, as pure functions.
 *
 * The state that survives a pass is the sensor-mode flag `on`, the previous
 * Button-B reading `lastB` and the slider variable (`None` until it is first
 * assigned).  `lastA` is not part of it: every pass ends with `lastA` false.
 * A pass reads Button A (a busy-wait over a sequence of readings), Button B
 * and, when the sensor is in use, the distance in whole centimetres; what it
 * produces is the sequence of UART writes.  A pass that reaches the CC send
 * with the slider variable never assigned stops the program (Python raises
 * NameError); the pass's writes up to that point are kept.
 */
module ControlLoop {
  import opened Wrappers
  import opened Midi
  import opened Slider

  /** The note, velocity, channel and controller number the loop uses. */
  const BUTTON_B_NOTE: nat := 63
  const NOTE_VELOCITY: nat := 127
  const LOOP_CHANNEL: nat := 0
  const SLIDER_CONTROLLER: nat := 24

  datatype State = State(on: bool, lastB: bool, slider: Option<nat>)

  /** The state at power-on. */
  const Boot := State(false, false, None)

  /**
   * The inputs of one pass: the Button-A readings in the order the busy-wait
   * takes them, the Button-B reading, and the measured distance (only used
   * when the sensor is in use).
   */
  datatype TickInput = TickInput(aReadings: seq<bool>, b: bool, distCm: int)

  /** The busy-wait ends: Button A is read as released at some point. */
  predicate Releases(t: TickInput)
  {
    false in t.aReadings
  }

  /** The first Button-A reading of the pass is "pressed". */
  predicate PressedA(t: TickInput)
  {
    |t.aReadings| > 0 && t.aReadings[0]
  }

  datatype Outcome = Outcome(next: State, sent: seq<Bytes>, crashed: bool)

  /** The note message, if any, for Button-B reading `b` after previous reading `lastB`. */
  function NoteFor(lastB: bool, b: bool): (r: Option<Bytes>)
    ensures r.Some? <==> b != lastB
    ensures r.Some? ==> r.value == if b then NOTE_ON_BYTES else NOTE_OFF_BYTES
  {
    if b && !lastB then MidiNoteOn(LOOP_CHANNEL, BUTTON_B_NOTE, NOTE_VELOCITY)
    else if !b && lastB then MidiNoteOff(LOOP_CHANNEL, BUTTON_B_NOTE, NOTE_VELOCITY)
    else None
  }

  /**
   * The CC write of a pass: only with the sensor on and a slider value bound
   * (with it unbound the send raises NameError instead).
   */
  function ControlChangeFor(on: bool, slider: Option<nat>): (ws: seq<Bytes>)
    ensures |ws| == if on && slider.Some? && slider.value <= MAX_DATA then 1 else 0
    ensures |ws| == 1 ==> ws[0] == [0xB0, 24, slider.value as byte]
  {
    if on && slider.Some? then Written(MidiControlChange(LOOP_CHANNEL, SLIDER_CONTROLLER, slider.value))
    else []
  }

  /**
   * One pass of the loop for a variant whose slider saturates at `aboveMax`:
   * at most a note and a CC are written, `lastB` becomes the reading, and
   * the pass stops the program exactly when the sensor is on with the slider
   * still unbound, which only a first use at 73 or 127 cm can cause.
   */
  function Step(aboveMax: nat, s: State, t: TickInput): (o: Outcome)
    requires Releases(t)
    ensures |o.sent| <= 2 && o.next.lastB == t.b
    ensures o.crashed <==> o.next.on && o.next.slider.None?
    ensures o.crashed ==> s.slider.None? && !Assigns(t.distCm)
  {
    var on := if PressedA(t) then !s.on else s.on;
    var slider := if on then SliderValue(aboveMax, t.distCm, s.slider) else s.slider;
    Outcome(State(on, t.b, slider),
            Written(NoteFor(s.lastB, t.b)) + ControlChangeFor(on, slider),
            on && slider.None?)
  }

  /** Number of writes in `ws` whose status byte has high nibble `kind`. */
  function CountKind(ws: seq<Bytes>, kind: int): nat
  {
    if ws == [] then 0 else (if Kind(ws[0]) == kind then 1 else 0) + CountKind(ws[1..], kind)
  }

  lemma {:induction false} CountKindAppend(a: seq<Bytes>, b: seq<Bytes>, kind: int)
    ensures CountKind(a + b, kind) == CountKind(a, kind) + CountKind(b, kind)
  {
    if a == [] {
      assert a + b == b;
    } else {
      assert (a + b)[0] == a[0];
      assert (a + b)[1..] == a[1..] + b;
      CountKindAppend(a[1..], b, kind);
    }
  }

  /** The note writes of `ws` (status high nibble 8 or 9), in the order written. */
  function NoteWrites(ws: seq<Bytes>): seq<Bytes>
  {
    if ws == [] then []
    else (if Kind(ws[0]) == 0x8 || Kind(ws[0]) == 0x9 then [ws[0]] else []) + NoteWrites(ws[1..])
  }

  lemma {:induction false} NoteWritesAppend(a: seq<Bytes>, b: seq<Bytes>)
    ensures NoteWrites(a + b) == NoteWrites(a) + NoteWrites(b)
  {
    if a == [] {
      assert a + b == b;
    } else {
      assert (a + b)[0] == a[0];
      assert (a + b)[1..] == a[1..] + b;
      NoteWritesAppend(a[1..], b);
    }
  }

  /** The note message the loop sends, written out. */
  const NOTE_ON_BYTES: Bytes := [0x90, 63, 127]
  const NOTE_OFF_BYTES: Bytes := [0x80, 63, 127]

  /** The sensor mode after a pass is the old one, flipped when Button A was pressed. */
  lemma StepToggles(aboveMax: nat, s: State, t: TickInput)
    requires Releases(t)
    ensures Step(aboveMax, s, t).next.on == (s.on != PressedA(t))
  {
  }

  /**
   * Button A: the mode flips exactly when the first reading of the pass is
   * "pressed", however many further pressed readings the busy-wait takes
   * before the release; it does not flip otherwise.
   */
  lemma ToggleOnPress(aboveMax: nat, s: State, held: nat, b: bool, d: int)
    ensures var t := TickInput(seq(held, _ => true) + [false], b, d);
      Releases(t) && Step(aboveMax, s, t).next.on == (if held > 0 then !s.on else s.on)
  {
    var t := TickInput(seq(held, _ => true) + [false], b, d);
    assert t.aReadings[held] == false;
    if held > 0 {
      assert t.aReadings[0];
    }
  }

  /** The CC write of a pass is a control change and nothing else. */
  lemma ControlChangeCounts(on: bool, slider: Option<nat>)
    ensures NoteWrites(ControlChangeFor(on, slider)) == []
    ensures CountKind(ControlChangeFor(on, slider), 0x9) == 0
    ensures CountKind(ControlChangeFor(on, slider), 0x8) == 0
    ensures on && slider.Some? && slider.value <= MAX_DATA ==>
      ControlChangeFor(on, slider) == [[0xB0, 24, slider.value as byte]]
      && CountKind(ControlChangeFor(on, slider), 0xB) == 1
  {
    var cc := ControlChangeFor(on, slider);
    if on && slider.Some? && slider.value <= MAX_DATA {
      assert cc == [[0xB0, 24, slider.value as byte]];
      assert Kind(cc[0]) == 0xB && cc[1..] == [];
    } else if on && slider.Some? {
      assert cc == [];
    }
  }

  /** The note writes of a pass, counted by kind. */
  lemma StepNoteCounts(aboveMax: nat, s: State, t: TickInput)
    requires Releases(t)
    ensures var o := Step(aboveMax, s, t);
      && CountKind(o.sent, 0x9) == (if t.b && !s.lastB then 1 else 0)
      && CountKind(o.sent, 0x8) == (if !t.b && s.lastB then 1 else 0)
  {
    var on := if PressedA(t) then !s.on else s.on;
    var slider := if on then SliderValue(aboveMax, t.distCm, s.slider) else s.slider;
    var note, cc := Written(NoteFor(s.lastB, t.b)), ControlChangeFor(on, slider);
    ControlChangeCounts(on, slider);
    CountKindAppend(note, cc, 0x9);
    CountKindAppend(note, cc, 0x8);
  }

  /** The note writes of a pass, in order: the one its Button-B edge calls for. */
  lemma StepNoteWrites(aboveMax: nat, s: State, t: TickInput)
    requires Releases(t)
    ensures NoteWrites(Step(aboveMax, s, t).sent) == EdgeNotes(s.lastB, [t])
  {
    var on := if PressedA(t) then !s.on else s.on;
    var slider := if on then SliderValue(aboveMax, t.distCm, s.slider) else s.slider;
    var note, cc := Written(NoteFor(s.lastB, t.b)), ControlChangeFor(on, slider);
    ControlChangeCounts(on, slider);
    NoteWritesAppend(note, cc);
    assert [t][1..] == [];
    if note != [] {
      assert note[1..] == [];
    }
  }

  /**
   * Button B: a Note On (0, 63, 127) is written exactly on a rising edge, a
   * Note Off (0, 63, 127) exactly on a falling edge, nothing when the reading
   * is unchanged; the note, if any, is the first write of the pass; and the
   * reading becomes `lastB`.
   */
  lemma NoteOnEdges(aboveMax: nat, s: State, t: TickInput)
    requires Releases(t)
    ensures var o := Step(aboveMax, s, t);
      && o.next.lastB == t.b
      && (t.b && !s.lastB <==> |o.sent| > 0 && o.sent[0] == NOTE_ON_BYTES)
      && (!t.b && s.lastB <==> |o.sent| > 0 && o.sent[0] == NOTE_OFF_BYTES)
      && CountKind(o.sent, 0x9) == (if t.b && !s.lastB then 1 else 0)
      && CountKind(o.sent, 0x8) == (if !t.b && s.lastB then 1 else 0)
  {
    StepNoteCounts(aboveMax, s, t);
  }

  /** The slider state is a value the CC range check accepts. */
  predicate SliderSendable(s: State)
  {
    s.slider.Some? ==> s.slider.value <= MAX_DATA
  }

  /**
   * Sensor mode: when the mode is off after the toggle no CC is written and
   * the program does not stop.  When it is on, either the slider was never
   * assigned and the distance is 73 or 127 (the program stops), or exactly
   * one CC on channel 0, controller 24, carrying the new slider value is
   * written, after the note message.  For a saturation value of at most 127
   * the CC is never dropped by the range check.
   */
  lemma ControlChangeWhenOn(aboveMax: nat, s: State, t: TickInput)
    requires Releases(t) && aboveMax <= MAX_DATA && SliderSendable(s)
    ensures var o := Step(aboveMax, s, t);
      && SliderSendable(o.next)
      && (o.crashed <==> o.next.on && s.slider.None? && !Assigns(t.distCm))
      && (!o.next.on ==> CountKind(o.sent, 0xB) == 0 && o.next.slider == s.slider)
      && (o.next.on && !o.crashed ==>
            CountKind(o.sent, 0xB) == 1
            && o.sent[|o.sent| - 1] == [0xB0, 24, o.next.slider.value as byte])
      && |o.sent| == CountKind(o.sent, 0x9) + CountKind(o.sent, 0x8) + CountKind(o.sent, 0xB)
  {
    var on := if PressedA(t) then !s.on else s.on;
    var slider := if on then SliderValue(aboveMax, t.distCm, s.slider) else s.slider;
    var note, cc := Written(NoteFor(s.lastB, t.b)), ControlChangeFor(on, slider);
    assert CountKind(note, 0xB) == 0;
    if on && Assigns(t.distCm) {
      SliderBounds(aboveMax, t.distCm, s.slider);
    }
    ControlChangeCounts(on, slider);
    CountKindAppend(note, cc, 0xB);
    StepWritesNotesAndControlChanges(aboveMax, s, t);
  }

  /** A pass writes note messages and control changes and nothing else. */
  lemma StepWritesNotesAndControlChanges(aboveMax: nat, s: State, t: TickInput)
    requires Releases(t)
    ensures var o := Step(aboveMax, s, t);
      |o.sent| == CountKind(o.sent, 0x9) + CountKind(o.sent, 0x8) + CountKind(o.sent, 0xB)
  {
    var on := if PressedA(t) then !s.on else s.on;
    var slider := if on then SliderValue(aboveMax, t.distCm, s.slider) else s.slider;
    var note, cc := Written(NoteFor(s.lastB, t.b)), ControlChangeFor(on, slider);
    StepNoteCounts(aboveMax, s, t);
    ControlChangeCounts(on, slider);
    CountKindAppend(note, cc, 0xB);
  }

  /**
   * The stale-value case: at exactly 73 or 127 cm no branch assigns, so the
   * CC carries the previous pass's slider value unchanged.
   */
  lemma StaleSliderResent(aboveMax: nat, s: State, t: TickInput)
    requires Releases(t) && !Assigns(t.distCm) && s.slider.Some? && SliderSendable(s)
    requires (if PressedA(t) then !s.on else s.on)
    ensures var o := Step(aboveMax, s, t);
      !o.crashed && o.next.slider == s.slider
      && |o.sent| > 0 && o.sent[|o.sent| - 1] == [0xB0, 24, s.slider.value as byte]
  {
  }

  datatype Trace = Trace(final: State, sent: seq<Bytes>, ticksRun: nat, crashed: bool)

  predicate AllRelease(ticks: seq<TickInput>)
  {
    forall i :: 0 <= i < |ticks| ==> Releases(ticks[i])
  }

  /**
   * Runs the loop over `ticks`, stopping after a pass that stops the
   * program; `ticksRun` is the number of passes that ran.
   */
  function Run(aboveMax: nat, s: State, ticks: seq<TickInput>): (r: Trace)
    requires AllRelease(ticks)
    ensures r.ticksRun <= |ticks|
    ensures r.crashed ==> r.ticksRun > 0
    ensures !r.crashed ==> r.ticksRun == |ticks|
    decreases |ticks|
  {
    if ticks == [] then Trace(s, [], 0, false)
    else
      var o := Step(aboveMax, s, ticks[0]);
      if o.crashed then Trace(o.next, o.sent, 1, true)
      else
        var rest := Run(aboveMax, o.next, ticks[1..]);
        Trace(rest.final, o.sent + rest.sent, rest.ticksRun + 1, rest.crashed)
  }

  /**
   * After `ran` passes of a run from `start` the state is `s`, the passes so
   * far wrote `done`, and `crashed` says whether the last of them stopped the
   * program.  If it did, that is the whole run; otherwise the whole run is
   * `done` followed by the run of the remaining passes from `s`.
   */
  ghost predicate RunSoFar(aboveMax: nat, start: State, ticks: seq<TickInput>,
                           ran: nat, s: State, done: seq<Bytes>, crashed: bool)
  {
    && ran <= |ticks| && AllRelease(ticks)
    && if crashed then
         Run(aboveMax, start, ticks) == Trace(s, done, ran, true)
       else
         var rest := Run(aboveMax, s, ticks[ran..]);
         Run(aboveMax, start, ticks) == Trace(rest.final, done + rest.sent, ran + rest.ticksRun, rest.crashed)
  }

  /** No pass has run yet. */
  lemma RunSoFarStart(aboveMax: nat, start: State, ticks: seq<TickInput>)
    requires AllRelease(ticks)
    ensures RunSoFar(aboveMax, start, ticks, 0, start, [], false)
  {
    assert ticks[0..] == ticks;
  }

  /** Executing the next pass keeps `RunSoFar`. */
  lemma RunSoFarStep(aboveMax: nat, start: State, ticks: seq<TickInput>, ran: nat, s: State, done: seq<Bytes>)
    requires RunSoFar(aboveMax, start, ticks, ran, s, done, false) && ran < |ticks|
    ensures Releases(ticks[ran])
    ensures var o := Step(aboveMax, s, ticks[ran]);
      RunSoFar(aboveMax, start, ticks, ran + 1, o.next, done + o.sent, o.crashed)
  {
    var suffix := ticks[ran..];
    assert suffix[0] == ticks[ran] && suffix[1..] == ticks[ran + 1..];
    var o := Step(aboveMax, s, ticks[ran]);
    if !o.crashed {
      var rest := Run(aboveMax, o.next, ticks[ran + 1..]);
      assert done + (o.sent + rest.sent) == (done + o.sent) + rest.sent;
    }
  }

  /** When every pass has run or one stopped the program, the run is what was recorded. */
  lemma RunSoFarDone(aboveMax: nat, start: State, ticks: seq<TickInput>, ran: nat, s: State, done: seq<Bytes>, crashed: bool)
    requires RunSoFar(aboveMax, start, ticks, ran, s, done, crashed) && (crashed || ran == |ticks|)
    ensures Run(aboveMax, start, ticks) == Trace(s, done, ran, crashed)
  {
    if !crashed {
      assert ticks[ran..] == [];
    }
  }

  /**
   * With a saturation value of at most 127, every slider value a run from
   * a sendable state leaves behind passes the CC range check.
   */
  lemma {:induction false} RunKeepsSendable(aboveMax: nat, s: State, ticks: seq<TickInput>)
    requires AllRelease(ticks) && aboveMax <= MAX_DATA && SliderSendable(s)
    ensures SliderSendable(Run(aboveMax, s, ticks).final)
    decreases |ticks|
  {
    if ticks != [] {
      ControlChangeWhenOn(aboveMax, s, ticks[0]);
      RunKeepsSendable(aboveMax, Step(aboveMax, s, ticks[0]).next, ticks[1..]);
    }
  }

  /** The first pass of a run, followed by the run of the remaining passes unless it stopped the program. */
  lemma RunCons(aboveMax: nat, s: State, ticks: seq<TickInput>)
    requires AllRelease(ticks) && ticks != []
    ensures var o := Step(aboveMax, s, ticks[0]);
      var r := Run(aboveMax, s, ticks);
      var rest := Run(aboveMax, o.next, ticks[1..]);
      && ticks[..r.ticksRun] == [ticks[0]] + (if o.crashed then [] else ticks[1..][..rest.ticksRun])
      && r.sent == o.sent + (if o.crashed then [] else rest.sent)
  {
    var o := Step(aboveMax, s, ticks[0]);
    var r := Run(aboveMax, s, ticks);
    if !o.crashed {
      var rest := Run(aboveMax, o.next, ticks[1..]);
      assert ticks[..r.ticksRun] == [ticks[0]] + ticks[1..][..rest.ticksRun];
    }
  }

  /** Rising edges of the Button-B readings of `ticks`, starting from `last`. */
  function RisingEdges(last: bool, ticks: seq<TickInput>): nat
    decreases |ticks|
  {
    if ticks == [] then 0
    else (if ticks[0].b && !last then 1 else 0) + RisingEdges(ticks[0].b, ticks[1..])
  }

  /** Falling edges of the Button-B readings of `ticks`, starting from `last`. */
  function FallingEdges(last: bool, ticks: seq<TickInput>): nat
    decreases |ticks|
  {
    if ticks == [] then 0
    else (if !ticks[0].b && last then 1 else 0) + FallingEdges(ticks[0].b, ticks[1..])
  }

  /** The note messages the Button-B edges of `ticks` call for, in order, starting from `last`. */
  function EdgeNotes(last: bool, ticks: seq<TickInput>): seq<Bytes>
    decreases |ticks|
  {
    if ticks == [] then []
    else (if ticks[0].b && !last then [NOTE_ON_BYTES]
          else if !ticks[0].b && last then [NOTE_OFF_BYTES]
          else [])
         + EdgeNotes(ticks[0].b, ticks[1..])
  }

  /** Passes of `ticks` whose first Button-A reading is "pressed". */
  function Presses(ticks: seq<TickInput>): nat
  {
    if ticks == [] then 0 else (if PressedA(ticks[0]) then 1 else 0) + Presses(ticks[1..])
  }

  /**
   * Over any run, the Note On writes are exactly the rising edges of Button B
   * and the Note Off writes exactly its falling edges, counted over the passes
   * that ran.
   */
  lemma {:induction false} RunNotesAreEdges(aboveMax: nat, s: State, ticks: seq<TickInput>)
    requires AllRelease(ticks)
    ensures var r := Run(aboveMax, s, ticks);
      && CountKind(r.sent, 0x9) == RisingEdges(s.lastB, ticks[..r.ticksRun])
      && CountKind(r.sent, 0x8) == FallingEdges(s.lastB, ticks[..r.ticksRun])
    decreases |ticks|
  {
    if ticks != [] {
      var o := Step(aboveMax, s, ticks[0]);
      var rest := Run(aboveMax, o.next, ticks[1..]);
      var sentLater := if o.crashed then [] else rest.sent;
      var later := if o.crashed then [] else ticks[1..][..rest.ticksRun];
      RunCons(aboveMax, s, ticks);
      StepNoteCounts(aboveMax, s, ticks[0]);
      if !o.crashed {
        RunNotesAreEdges(aboveMax, o.next, ticks[1..]);
      }
      CountKindAppend(o.sent, sentLater, 0x9);
      CountKindAppend(o.sent, sentLater, 0x8);
      EdgesAppend(s.lastB, [ticks[0]], later);
    }
  }

  /**
   * Over any run, the note writes, in the order they were written, are the
   * Note On and Note Off messages that the Button-B edges call for.
   */
  lemma {:induction false} RunNotesInOrder(aboveMax: nat, s: State, ticks: seq<TickInput>)
    requires AllRelease(ticks)
    ensures var r := Run(aboveMax, s, ticks);
      NoteWrites(r.sent) == EdgeNotes(s.lastB, ticks[..r.ticksRun])
    decreases |ticks|
  {
    if ticks != [] {
      var o := Step(aboveMax, s, ticks[0]);
      var rest := Run(aboveMax, o.next, ticks[1..]);
      var sentLater := if o.crashed then [] else rest.sent;
      var later := if o.crashed then [] else ticks[1..][..rest.ticksRun];
      RunCons(aboveMax, s, ticks);
      StepNoteWrites(aboveMax, s, ticks[0]);
      if !o.crashed {
        RunNotesInOrder(aboveMax, o.next, ticks[1..]);
      }
      NoteWritesAppend(o.sent, sentLater);
      EdgeNotesAppend(s.lastB, [ticks[0]], later);
    }
  }

  /** Whether `ticks` holds an odd number of Button-A presses, counted as a running flip. */
  function OddPresses(ticks: seq<TickInput>): bool
  {
    if ticks == [] then false else PressedA(ticks[0]) != OddPresses(ticks[1..])
  }

  lemma {:induction false} OddPressesIsParity(ticks: seq<TickInput>)
    ensures OddPresses(ticks) == (Presses(ticks) % 2 == 1)
  {
    if ticks != [] {
      OddPressesIsParity(ticks[1..]);
    }
  }

  lemma {:induction false} RunTogglesOdd(aboveMax: nat, s: State, ticks: seq<TickInput>)
    requires AllRelease(ticks)
    ensures var r := Run(aboveMax, s, ticks);
      r.final.on == (s.on != OddPresses(ticks[..r.ticksRun]))
    decreases |ticks|
  {
    var r := Run(aboveMax, s, ticks);
    if ticks != [] {
      var o := Step(aboveMax, s, ticks[0]);
      var run := ticks[..r.ticksRun];
      assert run[0] == ticks[0];
      if o.crashed {
        assert run[1..] == [];
      } else {
        var rest := Run(aboveMax, o.next, ticks[1..]);
        RunTogglesOdd(aboveMax, o.next, ticks[1..]);
        assert run[1..] == ticks[1..][..rest.ticksRun];
      }
    }
  }

  /**
   * Over any run, the sensor mode ends flipped exactly when Button A was
   * pressed an odd number of times in the passes that ran.
   */
  lemma RunTogglesByParity(aboveMax: nat, s: State, ticks: seq<TickInput>)
    requires AllRelease(ticks)
    ensures var r := Run(aboveMax, s, ticks);
      r.final.on == (s.on != (Presses(ticks[..r.ticksRun]) % 2 == 1))
  {
    var r := Run(aboveMax, s, ticks);
    RunTogglesOdd(aboveMax, s, ticks);
    OddPressesIsParity(ticks[..r.ticksRun]);
  }

  /** Once the slider has been assigned, no later pass stops the program. */
  lemma {:induction false} AssignedNeverCrashes(aboveMax: nat, s: State, ticks: seq<TickInput>)
    requires AllRelease(ticks) && s.slider.Some?
    ensures var r := Run(aboveMax, s, ticks);
      !r.crashed && r.ticksRun == |ticks| && r.final.slider.Some?
    decreases |ticks|
  {
    if ticks != [] {
      AssignedNeverCrashes(aboveMax, Step(aboveMax, s, ticks[0]).next, ticks[1..]);
    }
  }

  lemma {:induction false} RisingOfHeld(last: bool, ticks: seq<TickInput>, b: bool)
    requires forall i :: 0 <= i < |ticks| ==> ticks[i].b == b
    ensures RisingEdges(last, ticks) == (if ticks != [] && b && !last then 1 else 0)
    ensures FallingEdges(last, ticks) == (if ticks != [] && !b && last then 1 else 0)
    ensures EdgeNotes(last, ticks) == if ticks != [] && b && !last then [NOTE_ON_BYTES]
                                     else if ticks != [] && !b && last then [NOTE_OFF_BYTES]
                                     else []
    decreases |ticks|
  {
    if ticks != [] {
      RisingOfHeld(b, ticks[1..], b);
    }
  }

  lemma {:induction false} EdgesAppend(last: bool, a: seq<TickInput>, c: seq<TickInput>)
    requires a != []
    ensures RisingEdges(last, a + c) == RisingEdges(last, a) + RisingEdges(a[|a| - 1].b, c)
    ensures FallingEdges(last, a + c) == FallingEdges(last, a) + FallingEdges(a[|a| - 1].b, c)
    decreases |a|
  {
    assert (a + c)[1..] == a[1..] + c;
    if |a| > 1 {
      EdgesAppend(a[0].b, a[1..], c);
    }
  }

  lemma {:induction false} EdgeNotesAppend(last: bool, a: seq<TickInput>, c: seq<TickInput>)
    requires a != []
    ensures EdgeNotes(last, a + c) == EdgeNotes(last, a) + EdgeNotes(a[|a| - 1].b, c)
    decreases |a|
  {
    assert (a + c)[1..] == a[1..] + c;
    if |a| > 1 {
      EdgeNotesAppend(a[0].b, a[1..], c);
    } else {
      assert a[1..] == [];
    }
  }

  /** With the sensor off and Button A never pressed, no pass stops the program and the sensor stays off. */
  lemma {:induction false} SensorOffNeverCrashes(aboveMax: nat, s: State, ticks: seq<TickInput>)
    requires AllRelease(ticks) && !s.on
    requires forall i :: 0 <= i < |ticks| ==> !PressedA(ticks[i])
    ensures var r := Run(aboveMax, s, ticks);
      !r.crashed && r.ticksRun == |ticks| && !r.final.on && r.final.slider == s.slider
    decreases |ticks|
  {
    if ticks != [] {
      assert !PressedA(ticks[0]);
      SensorOffNeverCrashes(aboveMax, Step(aboveMax, s, ticks[0]).next, ticks[1..]);
    }
  }

  /**
   * A Button-B press held over any number of passes and then released for
   * any number of passes, in a run that does not stop, writes exactly one
   * Note On and exactly one Note Off, the Note On first, and no other note
   * message.
   */
  lemma HeldPressOneNoteEach(aboveMax: nat, s: State, press: seq<TickInput>, release: seq<TickInput>)
    requires AllRelease(press + release) && !s.lastB
    requires press != [] && release != []
    requires forall i :: 0 <= i < |press| ==> press[i].b
    requires forall i :: 0 <= i < |release| ==> !release[i].b
    requires !Run(aboveMax, s, press + release).crashed
    ensures var r := Run(aboveMax, s, press + release);
      && NoteWrites(r.sent) == [NOTE_ON_BYTES, NOTE_OFF_BYTES]
      && CountKind(r.sent, 0x9) == 1 && CountKind(r.sent, 0x8) == 1
  {
    var ticks := press + release;
    RunNotesAreEdges(aboveMax, s, ticks);
    RunNotesInOrder(aboveMax, s, ticks);
    assert ticks[..|ticks|] == ticks;
    PressReleaseEdges(press, release);
  }

  /** The Button-B edges of a press held over `press` and released over `release`. */
  lemma PressReleaseEdges(press: seq<TickInput>, release: seq<TickInput>)
    requires press != [] && release != []
    requires forall i :: 0 <= i < |press| ==> press[i].b
    requires forall i :: 0 <= i < |release| ==> !release[i].b
    ensures RisingEdges(false, press + release) == 1 && FallingEdges(false, press + release) == 1
    ensures EdgeNotes(false, press + release) == [NOTE_ON_BYTES, NOTE_OFF_BYTES]
  {
    EdgesAppend(false, press, release);
    EdgeNotesAppend(false, press, release);
    RisingOfHeld(false, press, true);
    RisingOfHeld(true, release, false);
  }

  /**
   * The same from a state where the run cannot stop: the slider already
   * bound, or (as at power-on) the sensor off and Button A left alone.
   */
  lemma HeldPressNeverStops(aboveMax: nat, s: State, press: seq<TickInput>, release: seq<TickInput>)
    requires AllRelease(press + release) && !s.lastB
    requires press != [] && release != []
    requires forall i :: 0 <= i < |press| ==> press[i].b
    requires forall i :: 0 <= i < |release| ==> !release[i].b
    requires s.slider.Some? || (!s.on && forall i :: 0 <= i < |press + release| ==> !PressedA((press + release)[i]))
    ensures var r := Run(aboveMax, s, press + release);
      && !r.crashed
      && NoteWrites(r.sent) == [NOTE_ON_BYTES, NOTE_OFF_BYTES]
      && CountKind(r.sent, 0x9) == 1 && CountKind(r.sent, 0x8) == 1
  {
    if s.slider.Some? {
      AssignedNeverCrashes(aboveMax, s, press + release);
    } else {
      SensorOffNeverCrashes(aboveMax, s, press + release);
    }
    HeldPressOneNoteEach(aboveMax, s, press, release);
  }
}
