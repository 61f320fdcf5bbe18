# MIDI-Move: a verified model of the micro:bit MIDI controller loop

MIDI-Move is a MicroPython program for a BBC micro:bit worn or held by a
performer. Button A switches the ultrasonic distance sensor on and off.
Button B plays a note: Note On when pressed, Note Off when released. While
the sensor is on, every pass of the main loop measures the hand's height,
maps it onto a 0–127 slider and sends it as a MIDI Control Change (channel 0,
controller 24). Messages go out over the UART at MIDI speed.

The repository holds two near-identical copies of the program, `MIDIMove.py`
and `IAMCodeV7.0.py`. They differ only in the slider value used when the hand
is above the calibration range: 127 in the first, 100 in the second. This
project models both with one parameterised model, plus one small module per
file.

- `wrappers.dfy`, module `Wrappers`: the `Option` datatype.
- `midi.dfy`, module `Midi`: the three encoders `midiNoteOn`, `midiNoteOff`
  and `midiControlChange`.
  - Each one is a function returning `Option<Bytes>`; `None` is a silently
    dropped request.
  - Python's `|` is written out bit by bit (`BitOr`). It is proved to be
    addition when the channel fits in the low nibble.
  - A decoder `Decode` is the encoders' partner, with round-trip lemmas in
    both directions.
- `slider.dfy`, module `Slider`: the distance-to-slider mapping.
  - The saturation value `aboveMax` is a parameter.
  - The previous slider value is an `Option`, so that "no branch assigned"
    (73 cm and 127 cm exactly) keeps the old value.
- `control_loop.dfy`, module `ControlLoop`: pure specification functions.
  - `Step` is one pass of `while True`.
  - `Run` is a finite sequence of passes, stopping at a pass that raises
    NameError.
  - The lemmas cover Button-A toggling, Button-B edges, CC emission, the
    stale slider value and counts over whole runs.
- `controller.dfy`, module `Controller`: the running program as a class.
  - The module-level variables `on`, `lastA`, `lastB` and `sliderValue` are
    its fields. The UART is the log `wire`.
  - `PollButtonA` is the busy-wait loop.
  - `Tick` is one pass, proved equal to `Step`.
  - `RunTicks` is the loop over finite input, proved equal to `Run`.
- `variants.dfy`, modules `MidiMove` (saturation 127) and `IamCode`
  (saturation 100): per-file facts.
  - The 127 variant is monotone. The 100 variant is not: 126 cm gives 124,
    128 cm gives 100.
  - For both, every pass that ends with the sensor on and does not stop the
    program sends exactly one CC.

Two places where the program's behaviour differs from what one might
expect. The model follows the code:

- At exactly 73 cm and 127 cm, none of the three slider branches assigns
  (`MIDIMove.py:153-163`). The CC therefore re-sends the previous pass's
  value. If the slider variable has never been assigned, the send raises
  NameError and the program stops. The model records this as
  `crashed`/`Trace.crashed`. It is not a clamp to 0 or 127.
- `IAMCodeV7.0.py:141` saturates at 100, not 127. With that value the
  mapping is not monotone (`IamCode.SliderNotMonotone`,
  `Slider.MonotoneIff`).

## Model

| member | source | states |
|---|---|---|
| Midi.BitOrDisjoint | MIDIMove.py:23 | or-ing a multiple of 2^k with a value below 2^k is their sum, so the bitwise or of base and chan keeps the base in the high nibble and the channel in the low nibble |
| Midi.ChannelVoice | IAMCodeV7.0.py:7-67 | the validation shared by the three encoders: nothing is produced exactly when chan > 15 or a data byte > 127; otherwise the message is `[base + chan, d1, d2]` |
| Midi.MidiNoteOn | MIDIMove.py:10-25 | Note On writes nothing when any argument is out of range, else exactly `[0x90 + chan, n, vel]` |
| Midi.MidiNoteOff | MIDIMove.py:28-44 | Note Off writes nothing when any argument is out of range, else exactly `[0x80 + chan, n, vel]` |
| Midi.MidiControlChange | MIDIMove.py:55-70 | Control Change writes nothing when any argument is out of range, else exactly `[0xB0 + chan, n, value]` |
| Midi.StatusByte | MIDIMove.py:23 | every encoded message has 3 bytes; the status byte's low nibble is the channel and its high nibble 9, 8 or B by kind; both data bytes are below 128 |
| Midi.DecodeEncode | MIDIMove.py:10-70 | decoding an encoded message gives back the message (kind, channel and both data bytes) |
| Midi.EncodeDecode | MIDIMove.py:10-70 | every 3-byte write that decodes is exactly what the corresponding encoder would send |
| Slider.Scaled | MIDIMove.py:161-163 | the interior value v is the floor of (d-73)·127/54: v·54 ≤ (d-73)·127 < (v+1)·54, and v < 127 |
| Slider.SliderValue | MIDIMove.py:153-163 | every distance other than 73 and 127 assigns a value; at 73 and 127 the previous value (or the lack of one) is kept |
| Slider.ScaledIsExactFloor | MIDIMove.py:162-163 | `floor((d-73)/54*127)` over exact rationals equals the integer quotient ((d-73)·127)/54 |
| Slider.QuotientNeverWhole | MIDIMove.py:163 | inside the range (d-73)·127 is never a multiple of 54, so the exact quotient never sits on an integer |
| Slider.ScaledMonotone | MIDIMove.py:161-163 | the interior value never decreases as the distance grows |
| Slider.ScaledAtMost124 | MIDIMove.py:161-163 | the interior value is at most 124, reached at 126 cm |
| Slider.MonotoneIff | MIDIMove.py:151-163 | over the distances that assign a value (all but 73 and 127 cm, where the previous value is kept), the mapping is non-decreasing in the distance if and only if the saturation value is at least 124 |
| Slider.SliderBounds | MIDIMove.py:153-163 | every assigned value is at most max(saturation, 124) |
| ControlLoop.NoteFor | MIDIMove.py:126-130 | a note message is due exactly when the Button-B reading differs from the previous one: Note On (0, 63, 127) on a press, Note Off (0, 63, 127) on a release |
| ControlLoop.ControlChangeFor | MIDIMove.py:165 | with the sensor on and the slider bound, exactly one write `[0xB0, 24, value]`, or none when the value exceeds 127; nothing otherwise |
| ControlLoop.Step | MIDIMove.py:102-172 | one pass writes at most two messages, `lastB` becomes the reading, and the pass stops the program exactly when the sensor is on with the slider unbound, which only a first use at 73 or 127 cm can cause |
| ControlLoop.StepToggles | MIDIMove.py:115-120 | after a pass, `on` is the old flag flipped exactly when the first Button-A reading was pressed |
| ControlLoop.ToggleOnPress | MIDIMove.py:105-120 | a pass whose busy-wait reads k ≥ 1 pressed readings and then a release flips `on` once; with k = 0 it does not flip |
| ControlLoop.NoteOnEdges | MIDIMove.py:123-133 | Note On (0, 63, 127) is the first write exactly on a rising Button-B edge, Note Off exactly on a falling edge; one or zero of each per pass; `lastB` becomes the reading |
| ControlLoop.ControlChangeWhenOn | MIDIMove.py:137-165 | sensor off after the toggle: no CC and the slider is unchanged; sensor on: either the pass stops on an unbound slider at 73/127 cm (and only then), or exactly one CC (channel 0, controller 24, new slider value) is the last write; the slider stays ≤ 127; every write of the pass is a Note On, a Note Off or a CC |
| ControlLoop.StepWritesNotesAndControlChanges | MIDIMove.py:123-165 | a pass writes nothing but note messages and control changes: the number of writes is the sum of the three kinds' counts |
| ControlLoop.StepNoteWrites | MIDIMove.py:123-133 | the note writes of a pass, in order, are exactly the one note its Button-B edge calls for |
| ControlLoop.StaleSliderResent | MIDIMove.py:153-165 | at 73 or 127 cm with the sensor on, the CC re-sends the previous pass's slider value unchanged |
| ControlLoop.Run | MIDIMove.py:102-172 | a run over n passes executes at most n of them, all n unless one raised NameError, and a run that stopped executed at least one |
| ControlLoop.RunKeepsSendable | MIDIMove.py:151-165 | with saturation ≤ 127, a run never leaves a slider value that the CC range check would drop |
| ControlLoop.RunNotesAreEdges | MIDIMove.py:123-133 | over any run, the number of Note On writes equals the rising Button-B edges and the Note Off writes the falling edges, over the passes that ran |
| ControlLoop.RunNotesInOrder | MIDIMove.py:123-133 | over any run, the note writes in the order written are exactly the Note On / Note Off sequence the Button-B edges of the passes that ran call for |
| ControlLoop.RunTogglesByParity | MIDIMove.py:105-120 | over any run, the final `on` is the initial one flipped exactly when Button A was pressed an odd number of times |
| ControlLoop.AssignedNeverCrashes | MIDIMove.py:153-165 | once the slider holds a value, every later pass runs and the slider keeps a value |
| ControlLoop.SensorOffNeverCrashes | MIDIMove.py:105-165 | with the sensor off and Button A never pressed, every pass runs, the sensor stays off and the slider is untouched |
| ControlLoop.HeldPressOneNoteEach | MIDIMove.py:125-133 | in any run that does not stop, from any state with `lastB` false, Button B held over any number of passes and then released gives exactly one Note On and one Note Off, the Note On first, and no other note message |
| ControlLoop.HeldPressNeverStops | MIDIMove.py:102-172 | the same with the slider bound, or from an off sensor with Button A left alone (as at power-on): the run does not stop and the note writes are Note On then Note Off |
| Controller.Controller.constructor | MIDIMove.py:81-83 | the program starts with `on`, `lastA`, `lastB` false, the slider unbound and nothing written |
| Controller.Controller.Send | MIDIMove.py:25 | `uart.write` appends the message to the wire, and nothing when the encoder dropped it |
| Controller.Controller.PollButtonA | MIDIMove.py:105-112 | the busy-wait takes readings up to and including the first release; `lastA` is set exactly when the first reading was pressed |
| Controller.Controller.ToggleMode | MIDIMove.py:105-120 | after the busy-wait and the toggle, `lastA` is cleared and `on` is flipped exactly when the first Button-A reading was pressed |
| Controller.Controller.CheckButtonB | MIDIMove.py:123-133 | the wire gains Note On on a rising Button-B edge, Note Off on a falling one, nothing otherwise; `lastB` becomes the reading |
| Controller.Controller.SendSlider | MIDIMove.py:151-165 | the slider becomes the mapped value (or keeps the old one at 73/127 cm); an unbound slider stops the program, otherwise one CC with the slider value is appended |
| Controller.Controller.Tick | MIDIMove.py:102-172 | one pass leaves `lastA` false and makes the variables, the wire and the stop flag exactly what `Step` specifies |
| Controller.Controller.RunTicks | MIDIMove.py:101-172 | the loop over finite input ends in exactly the state, wire, pass count and stop flag that `Run` specifies |
| MidiMove.SliderSaturatesAt127 | MIDIMove.py:151-158 | in this file the slider is 127 above the range and 0 below it; every assigned value is ≤ 127 and the mapping is monotone |
| MidiMove.OneControlChangePerActivePass | MIDIMove.py:137-165 | after any run from power-on, a pass ending with the sensor on (and not stopped) writes exactly one CC on channel 0, controller 24, as its last write, with a value ≤ 127 |
| MidiMove.HoldAndReleaseB | MIDIMove.py:123-133 | Button B held over two passes and then released, from power-on, writes exactly Note On then Note Off |
| IamCode.SliderNotMonotone | IAMCodeV7.0.py:140-146 | in this file 126 cm gives 124 but 128 cm gives 100: the mapping is not monotone |
| IamCode.SliderAtMost124 | IAMCodeV7.0.py:140-146 | in this file the slider is 100 above the range and every assigned value is ≤ 124 |
| IamCode.OneControlChangePerActivePass | IAMCodeV7.0.py:124-147 | after any run from power-on, a pass ending with the sensor on (and not stopped) writes exactly one CC on channel 0, controller 24, as its last write |
| IamCode.FirstPassAtBoundaryStops | IAMCodeV7.0.py:98-147 | pressing A from power-on with the hand at exactly 73 cm turns the sensor on and stops the program on the unbound slider, after the pass's note message |

## Left out

- `Start` / `uart.init` (31250 baud, 8-N-1, pin 0): configuration with no logic. The UART is only the log of written messages.
- `display.show`, `sleep(100)` and the trigger-pin pulse: hardware side effects that no data flows from.
- `time_pulse_us` and the float conversion `int(micros / 1000000 / 2 * 34300)`: a hardware call plus floating point. The distance in whole centimetres is an input of each pass.
- Slider.ScaledIsExactFloor: the interior value is proved equal to the floor of the exact rational `(d-73)/54*127`, not of its IEEE double evaluation. `Slider.QuotientNeverWhole` shows that the exact value stays at least 1/54 away from every integer, which double rounding cannot bridge; that last step is not proved.
- Negative arguments to the encoders, for which Python's `bytes([...])` raises: the encoder parameters are natural numbers.
- Controller.Controller.PollButtonA: requires that Button A is read as released at some point in the pass's readings. A button held forever blocks the source program for ever; that non-termination is not modelled. The same requirement is on `Tick`, `Step`, `Run` and `RunTicks`.
- The endless `while True`: a run is a finite sequence of passes.
- After a pass raises NameError, the model runs no further passes; what the micro:bit shows after an uncaught exception is not modelled.
