/**
 * MIDI 1.0 channel-voice message framing: the three encoder functions of the
 * firmware (`midiNoteOn`, `midiNoteOff`, `midiControlChange`).
 *
 * Each encoder range-checks its channel and its two data bytes and either
 * produces one 3-byte message `[base | chan, d1, d2]` or nothing at all; the
 * firmware then hands the message to the UART.  Here the encoders are pure
 * functions returning `Option<Bytes>` and the UART write is modelled by the
 * controller, which appends `Written(msg)` to its output log.
 */
module Midi {
  import opened Wrappers

  newtype byte = x: int | 0 <= x < 256

  /** One UART write. */
  type Bytes = seq<byte>

  /** Status bases (high nibble) of the Channel Voice Messages used here. */
  const NOTE_OFF: nat := 0x80
  const NOTE_ON: nat := 0x90
  const CONTROL_CHANGE: nat := 0xB0

  /** Largest channel number and largest data-byte value the encoders accept. */
  const MAX_CHANNEL: nat := 15
  const MAX_DATA: nat := 127

  /** Bitwise or of two naturals, bit by bit, as Python's `|` computes it. */
  function BitOr(x: nat, y: nat): nat
    decreases x + y
  {
    if x == 0 && y == 0 then 0
    else 2 * BitOr(x / 2, y / 2) + (if x % 2 == 1 || y % 2 == 1 then 1 else 0)
  }

  function Pow2(k: nat): (p: nat)
    ensures p >= 1
  {
    if k == 0 then 1 else 2 * Pow2(k - 1)
  }

  /**
   * Or-ing a multiple of `2^k` with a value below `2^k` is addition: this is
   * why `base | chan` puts the channel in the low nibble.
   */
  lemma {:induction false} BitOrDisjoint(q: nat, y: nat, k: nat)
    requires y < Pow2(k)
    ensures BitOr(q * Pow2(k), y) == q * Pow2(k) + y
  {
    if k == 0 {
      BitOrZero(q);
    } else {
      var m := q * Pow2(k - 1);
      assert q * Pow2(k) == 2 * m by {
        assert Pow2(k) == 2 * Pow2(k - 1);
      }
      BitOrDisjoint(q, y / 2, k - 1);
      assert (2 * m) / 2 == m && (2 * m) % 2 == 0;
      if m != 0 || y != 0 {
        assert BitOr(2 * m, y) == 2 * BitOr(m, y / 2) + y % 2;
      }
    }
  }

  /** The nibble case used by the encoders: `base | chan` with base a multiple of 16 and chan < 16. */
  lemma BitOrNibble(base: nat, chan: nat)
    requires base % 16 == 0 && chan < 16
    ensures BitOr(base, chan) == base + chan
  {
    assert Pow2(4) == 16;
    assert base == (base / 16) * Pow2(4);
    BitOrDisjoint(base / 16, chan, 4);
  }

  lemma {:induction false} BitOrZero(x: nat)
    ensures BitOr(x, 0) == x
    decreases x
  {
    if x != 0 {
      BitOrZero(x / 2);
    }
  }

  /** True when the three arguments pass the encoders' range checks. */
  predicate InRange(chan: nat, d1: nat, d2: nat)
  {
    chan <= MAX_CHANNEL && d1 <= MAX_DATA && d2 <= MAX_DATA
  }

  /**
   * The validation and framing the three encoders share: drop the request
   * when the channel or a data byte is out of range, otherwise build
   * `[base | chan, d1, d2]`.
   */
  function ChannelVoice(base: nat, chan: nat, d1: nat, d2: nat): (r: Option<Bytes>)
    requires base == NOTE_OFF || base == NOTE_ON || base == CONTROL_CHANGE
    ensures r.None? <==> !InRange(chan, d1, d2)
    ensures r.Some? ==> r.value == [(base + chan) as byte, d1 as byte, d2 as byte]
  {
    if chan > MAX_CHANNEL then None
    else if d1 > MAX_DATA then None
    else if d2 > MAX_DATA then None
    else BitOrNibble(base, chan); Some([BitOr(base, chan) as byte, d1 as byte, d2 as byte])
  }

  /** `midiNoteOn(chan, n, vel)`. */
  function MidiNoteOn(chan: nat, n: nat, vel: nat): (r: Option<Bytes>)
    ensures r == if InRange(chan, n, vel)
                 then Some([(0x90 + chan) as byte, n as byte, vel as byte])
                 else None
  {
    ChannelVoice(NOTE_ON, chan, n, vel)
  }

  /** `midiNoteOff(chan, n, vel)`. */
  function MidiNoteOff(chan: nat, n: nat, vel: nat): (r: Option<Bytes>)
    ensures r == if InRange(chan, n, vel)
                 then Some([(0x80 + chan) as byte, n as byte, vel as byte])
                 else None
  {
    ChannelVoice(NOTE_OFF, chan, n, vel)
  }

  /** `midiControlChange(chan, n, value)`. */
  function MidiControlChange(chan: nat, n: nat, value: nat): (r: Option<Bytes>)
    ensures r == if InRange(chan, n, value)
                 then Some([(0xB0 + chan) as byte, n as byte, value as byte])
                 else None
  {
    ChannelVoice(CONTROL_CHANGE, chan, n, value)
  }

  /** What `uart.write` receives: the message, or nothing when it was dropped. */
  function Written(msg: Option<Bytes>): (ws: seq<Bytes>)
    ensures |ws| == if msg.Some? then 1 else 0
    ensures msg.Some? ==> ws[0] == msg.value
  {
    if msg.Some? then [msg.value] else []
  }

  /** The high nibble of a write's status byte (-1 for an empty write). */
  function Kind(w: Bytes): int
  {
    if |w| == 0 then -1 else w[0] as int / 16
  }

  /** The channel-voice messages of the MIDI 1.0 specification this firmware sends. */
  datatype Message =
    | NoteOff(chan: nat, note: nat, velocity: nat)
    | NoteOn(chan: nat, note: nat, velocity: nat)
    | ControlChange(chan: nat, controller: nat, value: nat)

  /** Sends a message through the encoder for its kind. */
  function Encode(m: Message): Option<Bytes>
  {
    match m
    case NoteOff(c, n, v) => MidiNoteOff(c, n, v)
    case NoteOn(c, n, v) => MidiNoteOn(c, n, v)
    case ControlChange(c, n, v) => MidiControlChange(c, n, v)
  }

  /**
   * Reads a 3-byte channel-voice message back: the status byte's high nibble
   * is the kind, its low nibble the channel; both data bytes have their top
   * bit clear.
   */
  function Decode(w: Bytes): (m: Option<Message>)
    ensures m.Some? ==> |w| == 3 && w[1] as int <= MAX_DATA && w[2] as int <= MAX_DATA
  {
    if |w| != 3 || w[1] as int > MAX_DATA || w[2] as int > MAX_DATA then None
    else
      var chan := w[0] as int % 16;
      var d1, d2 := w[1] as int, w[2] as int;
      match w[0] as int / 16
      case 0x8 => Some(NoteOff(chan, d1, d2))
      case 0x9 => Some(NoteOn(chan, d1, d2))
      case 0xB => Some(ControlChange(chan, d1, d2))
      case _ => None
  }

  /**
   * Every message an encoder produces is a well-formed 3-byte MIDI message:
   * the status byte's high nibble is 9 (note on), 8 (note off) or B (control
   * change), its low nibble is the channel, and both data bytes are below 128.
   */
  lemma StatusByte(m: Message)
    requires Encode(m).Some?
    ensures var w := Encode(m).value;
      |w| == 3 && w[0] as int % 16 == m.chan && w[1] as int <= MAX_DATA && w[2] as int <= MAX_DATA
      && Kind(w) == (match m case NoteOff(_, _, _) => 0x8 case NoteOn(_, _, _) => 0x9 case ControlChange(_, _, _) => 0xB)
  {
    match m
    case NoteOff(c, n, v) => NibbleSplit(0x8, c);
    case NoteOn(c, n, v) => NibbleSplit(0x9, c);
    case ControlChange(c, n, v) => NibbleSplit(0xB, c);
  }

  lemma NibbleSplit(hi: nat, lo: nat)
    requires lo < 16
    ensures (hi * 16 + lo) / 16 == hi && (hi * 16 + lo) % 16 == lo
  {
  }

  /** Decoding undoes encoding: a message that is sent is read back unchanged. */
  lemma DecodeEncode(m: Message)
    requires Encode(m).Some?
    ensures Decode(Encode(m).value) == Some(m)
  {
  }

  /** Encoding undoes decoding: every write that decodes is exactly what the encoder would send. */
  lemma EncodeDecode(w: Bytes)
    requires Decode(w).Some?
    ensures Encode(Decode(w).value) == Some(w)
  {
    var m := Decode(w).value;
    assert m.chan <= MAX_CHANNEL;
    assert w[0] as int == (w[0] as int / 16) * 16 + m.chan;
    assert w == [w[0], w[1], w[2]];
  }
}
