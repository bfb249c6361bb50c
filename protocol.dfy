/// The pure part of the panel protocol in
/// boards/parts/controller/toot-mcu-fifo/src/controller.cpp: opcode bytes,
/// the signed step byte, the one-byte encoder, the key-to-note table, and
/// what handling one message emits to the UI, audio and log sinks.
module Protocol {
  import opened Services
  import opened Fifo

  /// `Command`: one byte per opcode.
  datatype Command =
    | ClearAllLeds | ClearLedGroup | SetLedColor
    | KeyDown | KeyUp
    | BlueEncStep | GreenEncStep | YellowEncStep | RedEncStep
  {
    function Byte(): bv8 {
      match this
      case ClearAllLeds => 0xE0
      case ClearLedGroup => 0xE1
      case SetLedColor => 0xEC
      case KeyDown => 0x20
      case KeyUp => 0x21
      case BlueEncStep => 0x30
      case GreenEncStep => 0x31
      case YellowEncStep => 0x32
      case RedEncStep => 0x33
    }

    /// The opcodes whose handling reads an argument byte.
    predicate HasArgument() {
      this in {KeyDown, KeyUp, BlueEncStep, GreenEncStep, YellowEncStep, RedEncStep}
    }
  }

  /// Reading an opcode byte back.
  function CommandOf(b: bv8): Option<Command> {
    match b
    case 0xE0 => Some(ClearAllLeds)
    case 0xE1 => Some(ClearLedGroup)
    case 0xEC => Some(SetLedColor)
    case 0x20 => Some(KeyDown)
    case 0x21 => Some(KeyUp)
    case 0x30 => Some(BlueEncStep)
    case 0x31 => Some(GreenEncStep)
    case 0x32 => Some(YellowEncStep)
    case 0x33 => Some(RedEncStep)
    case _ => None
  }

  lemma CommandRoundTrip(c: Command)
    ensures CommandOf(c.Byte()) == Some(c)
  {
  }

  lemma CommandOfSound(b: bv8)
    ensures CommandOf(b).Some? ==> CommandOf(b).value.Byte() == b
  {
  }

  /// The nine opcode bytes are pairwise distinct.
  lemma CommandBytesDistinct(c: Command, d: Command)
    ensures c.Byte() == d.Byte() ==> c == d
  {
    CommandRoundTrip(c);
    CommandRoundTrip(d);
  }

  /// `to_int8`: the byte reinterpreted as a signed 8-bit number.
  function ToInt8(x: bv8): (v: int)
    ensures -128 <= v <= 127
    ensures v >= 0 <==> x < 128
  {
    if x >= 128 then x as int - 256 else x as int
  }

  /// The two's-complement byte of a signed 8-bit number.
  function FromInt8(v: int): bv8
    requires -128 <= v <= 127
  {
    (if v < 0 then v + 256 else v) as bv8
  }

  lemma ToInt8RoundTrip(x: bv8)
    ensures FromInt8(ToInt8(x)) == x
  {
  }

  lemma FromInt8RoundTrip(v: int)
    requires -128 <= v <= 127
    ensures ToInt8(FromInt8(v)) == v
  {
  }

  lemma ToInt8Examples()
    ensures ToInt8(0xFE) == -2 && ToInt8(0xFF) == -1 && ToInt8(0x80) == -128
    ensures ToInt8(0x7F) == 127 && ToInt8(0x01) == 1
  {
  }

  /// `make_message(cmd)`: the message is the opcode byte alone.
  function MakeMessage(cmd: Command): (m: seq<bv8>)
    ensures |m| == 1 && CommandOf(m[0]) == Some(cmd)
  {
    CommandRoundTrip(cmd);
    [cmd.Byte()]
  }

  /// `to_byte(LED)`: the byte of the key the LED sits on.
  function LedByte(led: LED): (b: bv8)
    ensures KeyOf(b) == Some(led.key)
  {
    KeyByteRoundTrip(led.key);
    KeyByte(led.key)
  }

  /// The switch in `insert_key_or_midi`: the note a key plays, if any.
  function NoteOfKey(k: Key): Option<int> {
    match k
    case Step(0) => Some(47)     case Step(1) => Some(48)     case Channel(0) => Some(49)
    case Step(2) => Some(50)     case Channel(1) => Some(51)  case Step(3) => Some(52)
    case Step(4) => Some(53)     case Channel(2) => Some(54)  case Step(5) => Some(55)
    case Channel(3) => Some(56)  case Step(6) => Some(57)     case Channel(4) => Some(58)
    case Step(7) => Some(59)     case Step(8) => Some(60)     case Channel(5) => Some(61)
    case Step(9) => Some(62)     case Channel(6) => Some(63)  case Step(10) => Some(64)
    case Step(11) => Some(65)    case Channel(7) => Some(66)  case Step(12) => Some(67)
    case Channel(8) => Some(68)  case Step(13) => Some(69)    case Channel(9) => Some(70)
    case Step(14) => Some(71)    case Step(15) => Some(72)
    case _ => None
  }

  /// The inverse of the switch: the key that plays note 47 + i.
  const NoteKeys: seq<Key> := [
    Step(0), Step(1), Channel(0), Step(2), Channel(1), Step(3), Step(4),
    Channel(2), Step(5), Channel(3), Step(6), Channel(4), Step(7), Step(8),
    Channel(5), Step(9), Channel(6), Step(10), Step(11), Channel(7), Step(12),
    Channel(8), Step(13), Channel(9), Step(14), Step(15)
  ]

  function KeyOfNote(n: int): Option<Key> {
    if 47 <= n < 47 + |NoteKeys| then Some(NoteKeys[n - 47]) else None
  }

  /// Every note the switch plays lies in 47..72 and leads back to its key.
  lemma NoteOfKeyInverse(k: Key)
    ensures NoteOfKey(k).Some? ==> 47 <= NoteOfKey(k).value <= 72
    ensures NoteOfKey(k).Some? ==> KeyOfNote(NoteOfKey(k).value) == Some(k)
  {
  }

  /// Every note in 47..72 is played by exactly the key the inverse names.
  lemma KeyOfNoteInverse(n: int)
    ensures KeyOfNote(n).Some? <==> 47 <= n <= 72
    ensures KeyOfNote(n).Some? ==> NoteOfKey(KeyOfNote(n).value) == Some(n)
  {
    if 47 <= n <= 72 {
      var i := n - 47;
      assert KeyOfNote(n) == Some(NoteKeys[i]);
    }
  }

  /// Only the sequencer and channel keys play notes; encoder clicks and
  /// function keys do not.
  lemma NoteKeysAreKeyboardKeys(k: Key)
    ensures NoteOfKey(k).Some? <==> k.Step? || k.Channel?
  {
  }

  /// No two keys play the same note.
  lemma NoteOfKeyInjective(a: Key, b: Key)
    ensures NoteOfKey(a).Some? && NoteOfKey(a) == NoteOfKey(b) ==> a == b
  {
    NoteOfKeyInverse(a);
    NoteOfKeyInverse(b);
  }

  /// The switch runs on the key byte from the message, unchecked: a byte
  /// that is no Key matches no case.
  function MidiNote(code: KeyCode): Option<int> {
    match KeyOf(code)
    case Some(k) => NoteOfKey(k)
    case None => None
  }

  /// The byte of a key plays that key's note.
  lemma MidiNoteOfKey(k: Key)
    ensures MidiNote(KeyByte(k)) == NoteOfKey(k)
  {
    KeyByteRoundTrip(k);
  }

  /// A byte plays a note only when it is the byte of a sequencer or channel
  /// key, and then the note is that key's.
  lemma MidiNoteSound(code: KeyCode)
    ensures MidiNote(code).Some? ==> exists k :: KeyByte(k) == code && NoteOfKey(k) == MidiNote(code) && (k.Step? || k.Channel?)
  {
    KeyOfSound(code);
    if MidiNote(code).Some? {
      var k := KeyOf(code).value;
      NoteKeysAreKeyboardKeys(k);
      assert KeyByte(k) == code && NoteOfKey(k) == MidiNote(code);
    }
  }

  lemma MidiNoteExamples()
    ensures MidiNote(KeyByte(Step(0))) == Some(47)
    ensures MidiNote(KeyByte(Channel(0))) == Some(49)
    ensures MidiNote(KeyByte(Channel(9))) == Some(70)
    ensures MidiNote(KeyByte(Step(15))) == Some(72)
    ensures MidiNote(KeyByte(Func(Shift))) == None
  {
    MidiNoteOfKey(Step(0));
    MidiNoteOfKey(Channel(0));
    MidiNoteOfKey(Channel(9));
    MidiNoteOfKey(Step(15));
    MidiNoteOfKey(Func(Shift));
  }

  /// What the audio sink receives.
  datatype MidiEvent = NoteOn(note: int) | NoteOff(note: int)

  /// What the log receives.
  datatype LogLine =
    | PressedNote(note: int)
    | ReleasedNote(note: int)
    | Unparsable
    | ReadFailed(code: ErrorCode)
    | FellBackToDummy

  /// Everything one step emits, per sink and in order.
  datatype Effects = Effects(ui: seq<Event>, audio: seq<MidiEvent>, log: seq<LogLine>)

  const NoEffects := Effects([], [], [])

  /// `a`'s emissions followed by `b`'s.
  function Then(a: Effects, b: Effects): Effects {
    Effects(a.ui + b.ui, a.audio + b.audio, a.log + b.log)
  }

  lemma ThenAssociative(a: Effects, b: Effects, c: Effects)
    ensures Then(Then(a, b), c) == Then(a, Then(b, c))
    ensures Then(NoEffects, a) == a && Then(a, NoEffects) == a
  {
    assert a.ui + b.ui + c.ui == a.ui + (b.ui + c.ui);
    assert a.audio + b.audio + c.audio == a.audio + (b.audio + c.audio);
    assert a.log + b.log + c.log == a.log + (b.log + c.log);
  }

  /// `insert_key_event(cmd, key)`: a key press or release for the UI.
  function KeyEventEffects(cmd: Command, key: KeyCode): Effects
    requires cmd == KeyDown || cmd == KeyUp
  {
    if cmd == KeyDown then Effects([KeyPress(key)], [], [])
    else Effects([KeyRelease(key)], [], [])
  }

  /// `insert_key_or_midi(cmd, args, do_send_midi)`.
  function KeyOrMidiEffects(cmd: Command, args: seq<bv8>, sendMidi: bool): Effects
    requires cmd == KeyDown || cmd == KeyUp
    requires |args| > 0
  {
    var key := args[0];
    if !sendMidi then KeyEventEffects(cmd, key)
    else
      match MidiNote(key)
      case Some(note) =>
        if cmd == KeyDown then Effects([], [NoteOn(note)], [PressedNote(note)])
        else Effects([], [NoteOff(note)], [ReleasedNote(note)])
      case None => KeyEventEffects(cmd, key)
  }

  /// An opcode whose handling reads the byte after it.
  predicate TakesArgument(op: bv8) {
    CommandOf(op).Some? && CommandOf(op).value.HasArgument()
  }

  /// What `handle_message` needs of its bytes: an opcode (it asserts a
  /// non-empty message) and, for key and encoder opcodes, the byte that
  /// `args.at(0)` reads.
  predicate Handleable(bytes: seq<bv8>) {
    |bytes| > 0 && (TakesArgument(bytes[0]) ==> |bytes| >= 2)
  }

  function TurnEffects(encoder: Encoder, arg: bv8): Effects {
    Effects([Turn(EncoderEvent(encoder, ToInt8(arg)))], [], [])
  }

  /// `handle_message(bytes)`: dispatch on the opcode; anything that is not
  /// a key or encoder opcode is logged as unparsable.
  function MessageEffects(bytes: seq<bv8>, sendMidi: bool): Effects
    requires Handleable(bytes)
  {
    var args := bytes[1..];
    match CommandOf(bytes[0])
    case Some(KeyUp) => KeyOrMidiEffects(KeyUp, args, sendMidi)
    case Some(KeyDown) => KeyOrMidiEffects(KeyDown, args, sendMidi)
    case Some(BlueEncStep) => TurnEffects(Blue, args[0])
    case Some(GreenEncStep) => TurnEffects(Green, args[0])
    case Some(YellowEncStep) => TurnEffects(Yellow, args[0])
    case Some(RedEncStep) => TurnEffects(Red, args[0])
    case _ => Effects([], [], [Unparsable])
  }

  /// An encoder opcode 0x30 + n turns the encoder with ordinal n by the
  /// signed value of the next byte, and emits nothing else.
  lemma EncoderMessage(bytes: seq<bv8>, sendMidi: bool)
    requires |bytes| >= 2 && 0x30 <= bytes[0] <= 0x33
    ensures Handleable(bytes)
    ensures var e := MessageEffects(bytes, sendMidi);
            && |e.ui| == 1 && e.ui[0].Turn?
            && e.ui[0].turn.encoder.Ordinal() == bytes[0] - 0x30
            && e.ui[0].turn.steps == ToInt8(bytes[1])
            && e.audio == [] && e.log == []
  {
  }

  /// Any other first byte, the LED opcodes included, emits one log line and
  /// no event.
  lemma UnparsableMessage(bytes: seq<bv8>, sendMidi: bool)
    requires |bytes| > 0 && bytes[0] !in {0x20, 0x21, 0x30, 0x31, 0x32, 0x33}
    ensures Handleable(bytes)
    ensures MessageEffects(bytes, sendMidi) == Effects([], [], [Unparsable])
  {
  }

  /// With MIDI routing off, a key message is one UI key event.
  lemma KeyMessageWithoutMidi(bytes: seq<bv8>)
    requires |bytes| >= 2 && bytes[0] in {0x20, 0x21}
    ensures Handleable(bytes)
    ensures MessageEffects(bytes, false) == KeyEventEffects(CommandOf(bytes[0]).value, bytes[1])
  {
  }

  /// With MIDI routing on, a key of the table is one note event (on for a
  /// press, off for a release) and one log line, and no UI event.
  lemma KeyMessageWithMidi(bytes: seq<bv8>, note: int)
    requires |bytes| >= 2 && bytes[0] in {0x20, 0x21}
    requires MidiNote(bytes[1]) == Some(note)
    ensures Handleable(bytes)
    ensures MessageEffects(bytes, true)
         == if bytes[0] == 0x20 then Effects([], [NoteOn(note)], [PressedNote(note)])
            else Effects([], [NoteOff(note)], [ReleasedNote(note)])
  {
  }

  /// With MIDI routing on, a key outside the table falls back to the UI.
  lemma KeyMessageFallback(bytes: seq<bv8>)
    requires |bytes| >= 2 && bytes[0] in {0x20, 0x21}
    requires MidiNote(bytes[1]).None?
    ensures Handleable(bytes)
    ensures MessageEffects(bytes, true) == KeyEventEffects(CommandOf(bytes[0]).value, bytes[1])
  {
  }

  /// A key or encoder message emits exactly one event (UI or MIDI); any
  /// other message emits none and one log line.
  lemma OneEventPerMessage(bytes: seq<bv8>, sendMidi: bool)
    requires Handleable(bytes)
    ensures var e := MessageEffects(bytes, sendMidi);
            if TakesArgument(bytes[0]) then |e.ui| + |e.audio| == 1
            else e.ui == [] && e.audio == [] && |e.log| == 1
  {
  }

  /// Function keys and encoder clicks reach the UI whatever the routing.
  lemma NonKeyboardKeyGoesToUi(k: Key, sendMidi: bool)
    requires k.Func? || k.Click?
    ensures MessageEffects([0x20, KeyByte(k)], sendMidi) == Effects([KeyPress(KeyByte(k))], [], [])
  {
    MidiNoteOfKey(k);
    NoteKeysAreKeyboardKeys(k);
  }

  /// Pressing and releasing S0 with routing on plays note 47 on and off,
  /// and sends the UI nothing.
  lemma PressAndReleaseS0()
    ensures Then(MessageEffects([0x20, KeyByte(Step(0))], true), MessageEffects([0x21, KeyByte(Step(0))], true))
         == Effects([], [NoteOn(47), NoteOff(47)], [PressedNote(47), ReleasedNote(47)])
  {
    MidiNoteExamples();
  }

  /// `[0x33, 0xFE]` turns the red encoder two steps counter-clockwise.
  lemma RedEncoderBack(sendMidi: bool)
    ensures MessageEffects([0x33, 0xFE], sendMidi) == Effects([Turn(EncoderEvent(Red, -2))], [], [])
  {
  }
}
