# OTTO control-panel controller, modelled in Dafny

This project models the control-surface path of the OTTO instrument. A
microcontroller front panel talks to the controller over a byte FIFO. Each
line read from the FIFO is one message: an opcode byte, then arguments.

The controller turns each message into one of three things:

- a key press or key release for the UI;
- an encoder turn for the UI;
- a MIDI note on or off for the audio engine, when a sequencer or channel key is pressed or released while MIDI routing is on.

Anything else is logged as unparsable. Outbound bytes are queued in a
double buffer. The model follows the source's own structure:

- `locked.dfy`, module `Locking`, models `util::locked` and `util::double_buffered`, with the `clear_inner` and `clear_outer` policies (src/util/locked.hpp). Both are classes: the buffer keeps its two slots in an `array` and an index that `Swap` overwrites. The abstract `View` and `SwapView` functions state what the roles become, and the lemmas show what producers' appends look like after a swap.
- `services.dfy`, module `Services`, models the value types of the controller service (src/services/controller.hpp):
  - the `Key` byte encoding `(group << 6) | index` over the four sub-enums, with a reference decoder `KeyOf` and round-trip and injectivity lemmas;
  - the events;
  - `LEDColor`: its 24-bit unpacking, byte-wrapping `+` and `==`.
- `fifo.dfy`, module `Fifo`, models `util::FIFO` (src/util/fifo.cpp) as a class `Device`:
  - the operating system's `::read` is a script of replies, and the count `::write` returns is a parameter;
  - `Read` classifies the count with `ReadStatus` and fills `dest` as `Delivered` says; `Write` returns `WriteStatus`; `ReadSingle` and the do-while `ReadLine` are proved equal to `ReadSingleOf` and `ReadLineOf`;
  - the lemmas state the shape of a line, what a failure discards, and that successive lines reproduce the byte stream.
- `protocol.dfy`, module `Protocol`, holds the pure part of the board's controller.cpp:
  - the `Command` opcode table, `to_int8`, `make_message` and `to_byte(LED)`;
  - the key-to-note switch and its inverse;
  - `MessageEffects`, which states what `handle_message` emits to the three sinks (UI, audio, log).
- `toot_controller.dfy`, module `TootMcuFifo`, holds the controller class `FifoController`:
  - its fields `fifo`, `events` (`clear_inner`), `writeBuffer` (`clear_outer`) and `sendMidi`;
  - its methods `InsertKeyEvent`, `InsertKeyOrMidi`, `HandleMessage`, `QueueMessage`, the reader loop (`ReaderStep`, `RunReader`) and the LED stubs;
  - `MakeOrDummy`.
  
  The UI, the audio manager and the log are a `Sinks` object whose sequences record every emission.

The reader loop is modelled for a delimiter that is not an opcode taking an
argument (`!TakesArgument(delim)`). With such a delimiter, every line the
loop hands to `handle_message` has the argument byte that `bytes.at(0)`
reads.

## Model

| member | source | states |
|---|---|---|
| Services.FuncKey.Index | src/services/controller.hpp:25-47 | every function-key index is at most 20, so it fits below bit 6 |
| Services.Index | src/services/controller.hpp:25-70 | every sub-enum index (encoder, function, channel, sequencer) is below 64 |
| Services.KeyByte | src/services/controller.hpp:72-127 | computes a key's byte, the group shifted left by six bits ORed with the index; KeyByteFields, KeyByteRoundTrip, KeyOfSound and KeyByteInjective state its properties against the decoder KeyOf |
| Services.Encoder.Ordinal | src/services/controller.hpp:49 | blue, green, yellow, red are 0..3, each below 4; EncoderRoundTrip relates them to EncoderOf |
| Services.EncoderRoundTrip | src/services/controller.hpp:49 | the encoder ordinals 0..3 name the four encoders |
| Services.FuncKeyRoundTrip | src/services/controller.hpp:25-47 | the function-key indices name the 21 function keys |
| Services.KeyByteFields | src/services/controller.hpp:72-127 | a key's byte has its group in bits 6-7 and its sub-enum index in bits 0-5 |
| Services.KeyByteRoundTrip | src/services/controller.hpp:72-127 | decoding a key's byte gives that key back |
| Services.KeyOfSound | src/services/controller.hpp:72-127 | whatever key the decoder names for a byte has exactly that byte |
| Services.KeyByteInjective | src/services/controller.hpp:72-127 | no two keys share a byte value |
| Services.KeyByteValue | src/services/controller.hpp:72-127 | a key's byte is group * 64 + index |
| Services.ClickKeysAreOrdinals | src/services/controller.hpp:74-77 | the click keys' bytes are the encoder ordinals, below 4 |
| Services.FromRgb | src/services/controller.hpp:157 | computes the colour from bits 16-23, 8-15 and 0-7; RgbRoundTrip and FromRgbIgnoresHighByte relate it to its inverse ToRgb |
| Services.LEDColor.Plus | src/services/controller.hpp:185-189 | computes the channelwise sum cast to a byte; PlusWraps states the wrap-around |
| Services.LEDColor.Equals | src/services/controller.hpp:191-193 | compares the three channels; EqualsIsEquality states it is value equality |
| Services.RgbRoundTrip | src/services/controller.hpp:157 | unpacking the 24-bit packing of a colour gives the colour back |
| Services.FromRgbIgnoresHighByte | src/services/controller.hpp:157 | bits above 23 never reach the colour, and the low 24 bits all do |
| Services.PlusWraps | src/services/controller.hpp:185-189 | `+` adds each channel and drops the carry out of the byte |
| Services.EqualsIsEquality | src/services/controller.hpp:191-193 | `==` holds exactly when all three channels agree |
| Services.NamedColors | src/services/controller.hpp:204-209 | the default colour is black, and each named colour unpacks its hex value |
| Locking.Locked.constructor | src/util/locked.hpp:17-19 | the wrapper holds the value it was built from |
| Locking.Locked.Apply | src/util/locked.hpp:30-35 | `f` runs on exactly the wrapped contents, its update is kept and its result returned |
| Locking.Locked.ApplyConst | src/util/locked.hpp:43-48 | the const overload returns `f` of the contents and changes nothing |
| Locking.Locked.UnsafeAccess | src/util/locked.hpp:53-56 | returns the same contents `Apply` sees |
| Locking.Other | src/util/locked.hpp:153 | the flipped index is the other of the two slots |
| Locking.SwapView | src/util/locked.hpp:150-155 | computes the roles after swap and the policy's clearing; Swap is proved equal to it, and QueuedThenSwapped, QueuedThenSwappedClearInner and SwapTwiceRestoresRoles state its properties |
| Locking.AppendAll | src/util/locked.hpp:134-139 | producers' appends keep the index, the inner slot and the old outer contents as a prefix |
| Locking.AppendAllOuter | src/util/locked.hpp:134-139 | successive outer appends leave exactly old outer followed by every appended piece, in order |
| Locking.QueuedThenSwapped | src/util/locked.hpp:75-81 | with clear_outer, a swap makes all that was queued the new inner slot and empties the outer one |
| Locking.QueuedThenSwappedClearInner | src/util/locked.hpp:68-74 | with clear_inner, a swap leaves the new inner slot empty and the old inner contents outer |
| Locking.SwapTwiceRestoresRoles | src/util/locked.hpp:150-155 | one swap changes which slot is inner, and two swaps restore it |
| Locking.DoubleBuffered.InnerIndex | src/util/locked.hpp:112-120 | the inner slot's index is 0 or 1 |
| Locking.DoubleBuffered.OuterIndex | src/util/locked.hpp:122-132 | the outer slot's index is 0 or 1 and never the inner one |
| Locking.DoubleBuffered.Inner | src/util/locked.hpp:112-120 | the slot at the inner index; State exposes it, and OuterLocked and Swap are specified through it |
| Locking.DoubleBuffered.Outer | src/util/locked.hpp:122-132 | the slot at the other index; OuterLocked rewrites only it |
| Locking.DoubleBuffered.constructor | src/util/locked.hpp:92-95 | index 0, the first argument inner and the second outer |
| Locking.DoubleBuffered.WithInner | src/util/locked.hpp:102-105 | index 0, the argument inner and an empty outer slot |
| Locking.DoubleBuffered.Empty | src/util/locked.hpp:107-110 | index 0 and both slots empty |
| Locking.DoubleBuffered.OuterLocked | src/util/locked.hpp:134-139 | `f` rewrites only the outer slot; the inner slot and index are unchanged |
| Locking.DoubleBuffered.Swap | src/util/locked.hpp:150-155 | the index flips, then the policy clears the new inner or the new outer slot |
| Fifo.ReadStatus | src/util/fifo.cpp:52-64 | 0 bytes is empty_buffer, any other short or failed count is error, a full read succeeds |
| Fifo.WriteStatus | src/util/fifo.cpp:41-50 | a write succeeds exactly when the whole buffer was accepted, otherwise error |
| Fifo.ReadSingleOf | src/util/fifo.cpp:73-77 | a single read succeeds exactly when one byte arrived, and returns that byte |
| Fifo.ReadLineOf | src/util/fifo.cpp:79-90 | computes read_line on a script: single reads up to and including the delimiter, the first failure ending it; ReadLineShape, ReadLineOfSingles, ReadLineConsumes, ReadLineFailure and ReadLinesReproduceStream state its properties, and Device.ReadLine is proved equal to it |
| Fifo.ReadLineShape | src/util/fifo.cpp:79-90 | a line is non-empty, ends with the delimiter and holds no earlier delimiter |
| Fifo.ReadLineConsumes | src/util/fifo.cpp:83-89 | a line consumed one single-byte read per byte, in order, and nothing after |
| Fifo.ReadLineFailure | src/util/fifo.cpp:84-85 | a failed line returns the error of the read that failed, and drops the bytes read before it |
| Fifo.ReadLineOfSingles | src/util/fifo.cpp:79-90 | a delimited line delivered byte by byte is read back whole and the rest is untouched |
| Fifo.LinePayload | src/util/fifo.cpp:83-89 | one line equals exactly the bytes its consumed reads delivered |
| Fifo.ReadLinesReproduceStream | src/util/fifo.cpp:83-89 | successive lines, end to end, are exactly the consumed byte stream |
| Fifo.Device.constructor | src/util/fifo.cpp:21-34 | an opened device starts from its script, with nothing written |
| Fifo.Device.Read | src/util/fifo.cpp:52-64 | one read consumes one reply, copies its bytes into `dest` and classifies the count |
| Fifo.Device.ReadSingle | src/util/fifo.cpp:73-77 | agrees with ReadSingleOf |
| Fifo.Device.ReadLine | src/util/fifo.cpp:79-90 | the do-while loop agrees with ReadLineOf |
| Fifo.Device.Write | src/util/fifo.cpp:41-50 | the accepted bytes reach the device, and the status is WriteStatus |
| Protocol.CommandRoundTrip | boards/parts/controller/toot-mcu-fifo/src/controller.cpp:18-28 | every opcode byte reads back as its command |
| Protocol.CommandOfSound | boards/parts/controller/toot-mcu-fifo/src/controller.cpp:18-28 | a byte read as a command is that command's byte |
| Protocol.CommandBytesDistinct | boards/parts/controller/toot-mcu-fifo/src/controller.cpp:18-28 | the nine opcode bytes are pairwise distinct |
| Protocol.Command.Byte | boards/parts/controller/toot-mcu-fifo/src/controller.cpp:18-28 | the opcode byte of each command; CommandRoundTrip, CommandOfSound and CommandBytesDistinct relate it to the decoder CommandOf |
| Protocol.ToInt8 | boards/parts/controller/toot-mcu-fifo/src/controller.cpp:116-119 | the result is in [-128, 127] and is negative exactly for bytes from 128 |
| Protocol.ToInt8RoundTrip | boards/parts/controller/toot-mcu-fifo/src/controller.cpp:116-119 | two's-complement encoding inverts to_int8 on every byte |
| Protocol.FromInt8RoundTrip | boards/parts/controller/toot-mcu-fifo/src/controller.cpp:116-119 | to_int8 inverts two's-complement encoding on [-128, 127] |
| Protocol.ToInt8Examples | boards/parts/controller/toot-mcu-fifo/src/controller.cpp:116-119 | 0xFE is -2, 0xFF is -1, 0x80 is -128 and 0x7F is 127 |
| Protocol.MakeMessage | boards/parts/controller/toot-mcu-fifo/src/controller.cpp:103-106 | a message of one byte that reads back as the command |
| Protocol.LedByte | boards/parts/controller/toot-mcu-fifo/src/controller.cpp:34-37 | an LED's byte decodes to the LED's key |
| Protocol.NoteOfKeyInverse | boards/parts/controller/toot-mcu-fifo/src/controller.cpp:72-98 | every note the switch plays is in 47..72 and the inverse table leads back to its key |
| Protocol.KeyOfNoteInverse | boards/parts/controller/toot-mcu-fifo/src/controller.cpp:72-98 | every note in 47..72, and no other, is played by the key the inverse names |
| Protocol.NoteKeysAreKeyboardKeys | boards/parts/controller/toot-mcu-fifo/src/controller.cpp:72-99 | exactly the sequencer and channel keys play notes |
| Protocol.NoteOfKeyInjective | boards/parts/controller/toot-mcu-fifo/src/controller.cpp:72-98 | no two keys play the same note |
| Protocol.NoteOfKey | boards/parts/controller/toot-mcu-fifo/src/controller.cpp:72-99 | the switch from key to note; NoteOfKeyInverse and KeyOfNoteInverse prove it a bijection between the 26 keys and notes 47..72, with KeyOfNote as inverse |
| Protocol.MidiNote | boards/parts/controller/toot-mcu-fifo/src/controller.cpp:55-99 | the switch applied to the raw key byte; MidiNoteOfKey and MidiNoteSound state which bytes play which notes |
| Protocol.MidiNoteOfKey | boards/parts/controller/toot-mcu-fifo/src/controller.cpp:55-99 | the switch on a key's byte selects that key's case |
| Protocol.MidiNoteSound | boards/parts/controller/toot-mcu-fifo/src/controller.cpp:55-99 | a byte plays a note only when it is a sequencer or channel key's byte |
| Protocol.MidiNoteExamples | boards/parts/controller/toot-mcu-fifo/src/controller.cpp:73-98 | S0 plays 47, C0 49, C9 70, S15 72, and shift plays nothing |
| Protocol.ThenAssociative | boards/parts/controller/toot-mcu-fifo/src/controller.cpp:121-140 | emissions are concatenated per sink, associatively, with nothing as identity |
| Protocol.KeyEventEffects | boards/parts/controller/toot-mcu-fifo/src/controller.cpp:39-50 | a press for key down, a release for key up; KeyMessageWithoutMidi states it for messages |
| Protocol.KeyOrMidiEffects | boards/parts/controller/toot-mcu-fifo/src/controller.cpp:52-101 | the routing decision; KeyMessageWithMidi, KeyMessageFallback and NonKeyboardKeyGoesToUi state its cases |
| Protocol.MessageEffects | boards/parts/controller/toot-mcu-fifo/src/controller.cpp:121-140 | the dispatch on the opcode; EncoderMessage, UnparsableMessage, OneEventPerMessage and the key-message lemmas state its cases |
| Protocol.EncoderMessage | boards/parts/controller/toot-mcu-fifo/src/controller.cpp:131-134 | an encoder opcode 0x30+n emits one turn of encoder n by to_int8 of the next byte, and nothing else |
| Protocol.UnparsableMessage | boards/parts/controller/toot-mcu-fifo/src/controller.cpp:135-138 | any other first byte, the LED opcodes included, emits only the unparsable log line |
| Protocol.KeyMessageWithoutMidi | boards/parts/controller/toot-mcu-fifo/src/controller.cpp:52-58 | with routing off, key down/up emits exactly one press/release of the key byte |
| Protocol.KeyMessageWithMidi | boards/parts/controller/toot-mcu-fifo/src/controller.cpp:60-98 | with routing on, a key in the switch emits one note on/off and one log line, and no UI event |
| Protocol.KeyMessageFallback | boards/parts/controller/toot-mcu-fifo/src/controller.cpp:99 | with routing on, a key outside the switch falls back to press/release |
| Protocol.OneEventPerMessage | boards/parts/controller/toot-mcu-fifo/src/controller.cpp:121-140 | a key or encoder message emits exactly one event, and any other message none plus one log line |
| Protocol.NonKeyboardKeyGoesToUi | boards/parts/controller/toot-mcu-fifo/src/controller.cpp:52-100 | function keys and encoder clicks reach the UI whatever the routing |
| Protocol.PressAndReleaseS0 | boards/parts/controller/toot-mcu-fifo/src/controller.cpp:60-98 | pressing and releasing S0 plays note 47 on then off |
| Protocol.RedEncoderBack | boards/parts/controller/toot-mcu-fifo/src/controller.cpp:134 | [0x33, 0xFE] turns the red encoder by -2 |
| TootMcuFifo.Sinks.constructor | src/services/controller.hpp:241-257 | nothing has been emitted yet |
| TootMcuFifo.Sinks.Keypress | src/services/controller.hpp:246 | one key press reaches the UI |
| TootMcuFifo.Sinks.Keyrelease | src/services/controller.hpp:252 | one key release reaches the UI |
| TootMcuFifo.Sinks.EncoderTurned | src/services/controller.hpp:257 | one encoder turn reaches the UI |
| TootMcuFifo.Sinks.SendMidi | boards/parts/controller/toot-mcu-fifo/src/controller.cpp:61-70 | one MIDI event reaches the audio manager |
| TootMcuFifo.Sinks.Log | boards/parts/controller/toot-mcu-fifo/src/controller.cpp:136 | one line reaches the log |
| TootMcuFifo.ReadLineHandleable | boards/parts/controller/toot-mcu-fifo/src/controller.cpp:123-134 | every line read carries the argument byte its opcode needs |
| TootMcuFifo.LineEffects | boards/parts/controller/toot-mcu-fifo/src/controller.cpp:145-151 | the reader's treatment of one read_line result; StepSilentIffEmpty and StepOnError state it |
| TootMcuFifo.StepOf | boards/parts/controller/toot-mcu-fifo/src/controller.cpp:145-151 | one reader round on a script; ReaderStep is proved equal to it, and StepHandlesDeliveredLine states what a delivered line does |
| TootMcuFifo.ReaderRun | boards/parts/controller/toot-mcu-fifo/src/controller.cpp:143-152 | a number of reader rounds; RunReader is proved equal to it, and ReaderIdleSilent and ReaderPlaysS0 state its behaviour |
| TootMcuFifo.StepSilentIffEmpty | boards/parts/controller/toot-mcu-fifo/src/controller.cpp:145-151 | a reader round emits nothing exactly when the FIFO reported empty_buffer |
| TootMcuFifo.StepOnError | boards/parts/controller/toot-mcu-fifo/src/controller.cpp:147-151 | a read error reaches neither UI nor audio, and is logged once exactly when it is not empty_buffer |
| TootMcuFifo.StepHandlesDeliveredLine | boards/parts/controller/toot-mcu-fifo/src/controller.cpp:145-146 | a delimited message delivered byte by byte is handled once, consuming nothing after it |
| TootMcuFifo.ReaderIdleSilent | boards/parts/controller/toot-mcu-fifo/src/controller.cpp:143-152 | with no data the loop emits nothing, however long it runs |
| TootMcuFifo.ReaderPlaysS0 | boards/parts/controller/toot-mcu-fifo/src/controller.cpp:143-152 | two lines pressing and releasing S0 play note 47 on and off |
| TootMcuFifo.FifoController.constructor | boards/parts/controller/toot-mcu-fifo/include/board/controller.hpp:33-37 | events uses clear_inner, the write buffer clear_outer, both are empty, and MIDI routing is on |
| TootMcuFifo.FifoController.InsertKeyEvent | boards/parts/controller/toot-mcu-fifo/src/controller.cpp:39-50 | key down presses, key up releases |
| TootMcuFifo.FifoController.InsertKeyOrMidi | boards/parts/controller/toot-mcu-fifo/src/controller.cpp:52-101 | emits what KeyOrMidiEffects describes |
| TootMcuFifo.FifoController.HandleMessage | boards/parts/controller/toot-mcu-fifo/src/controller.cpp:121-140 | emits what MessageEffects describes, with the controller's routing flag |
| TootMcuFifo.FifoController.QueueMessage | boards/parts/controller/toot-mcu-fifo/src/controller.cpp:108-114 | the outer slot becomes old outer followed by the message; the inner slot, the index and the events buffer are unchanged |
| TootMcuFifo.FifoController.ReaderStep | boards/parts/controller/toot-mcu-fifo/src/controller.cpp:145-151 | one read_line, handled as StepOf says |
| TootMcuFifo.FifoController.RunReader | boards/parts/controller/toot-mcu-fifo/src/controller.cpp:143-152 | the loop agrees with ReaderRun round by round |
| TootMcuFifo.FifoController.SetColor | boards/parts/controller/toot-mcu-fifo/src/controller.cpp:165-168 | changes no state and emits nothing |
| TootMcuFifo.FifoController.FlushLeds | boards/parts/controller/toot-mcu-fifo/src/controller.cpp:170-173 | changes no state and emits nothing |
| TootMcuFifo.FifoController.ClearLeds | boards/parts/controller/toot-mcu-fifo/src/controller.cpp:174-177 | changes no state and emits nothing |
| TootMcuFifo.MakeOrDummy | boards/parts/controller/toot-mcu-fifo/src/controller.cpp:156-163 | always returns a controller: when the device opened, a fresh real one in the constructor's state (empty buffers, nothing written, routing on); otherwise the dummy, plus one log line |

## Left out

- Mutexes, `std::atomic` and the reader thread: every operation runs as one critical section in a single thread. Lock-freedom and atomicity are not modelled.
- The stop predicate `should_run` is a round count given to `RunReader`.
- `LEDColor::mix`, `dim`, `brighten`, `operator*` and `operator/`: float arithmetic.
- The OS calls `open`, `close`, `::read` and `::write`:
  - `::read` answers from a script of replies;
  - the count `::write` returns is a parameter;
  - `open`'s descriptor is a parameter of `MakeOrDummy`;
  - `close` has no observable effect here.
- `FIFO::read(std::size_t n)`: it only reserves capacity, so it reads into an empty buffer. It is not part of this model.
- BETTER_ENUM machinery (`_to_index`, `_size`, `_from_integral_unchecked` checks, the `std::hash` specialisation). Keys in events are raw bytes, because the controller converts them unchecked.
- `make_or_emulator`, `Controller::make_dummy`, `is_pressed` and `register_key_handler`: their bodies are not part of this model. The dummy controller is the `Dummy` handle.
- The Controller base's `keypress`, `keyrelease` and `encoder`: their bodies are not part of this model. They are recorded as UI emissions.
- The audio manager and the log are recorded as emissions. Log message texts are reduced to their kind.
- The default delimiter of `read_line` is declared in util/fifo.hpp, which is not part of this model. The reader is modelled for any delimiter that is not an opcode taking an argument.
- TootMcuFifo.FifoController.ReaderStep: requires `!TakesArgument(delim)`. A one-byte line whose byte is an argument-taking opcode has no argument. For the encoder opcodes 0x30-0x33, `handle_message` then calls `bytes.at(0)` on an empty span (controller.cpp:131-134). For the key opcodes 0x20 and 0x21, `insert_key_or_midi` fails `OTTO_ASSERT(args.size() > 0)` and then calls `args.at(0)` (controller.cpp:54-55). Either way the process ends inside the noexcept reader lambda; that path is not modelled.
- The transmission path that drains the write buffer does not appear in the source. Only `QueueMessage` and the buffer's swap semantics are modelled.
- `events_` is declared in controller.hpp but never used in controller.cpp, so it is only a field with its policy.
- `EncoderEvent` is a datatype, and `KeyPressEvent` and `KeyReleaseEvent` are the `KeyPress` and `KeyRelease` constructors of `Services.Event`, holding the raw key byte. Each holds its constructor arguments by construction, so no lemma states it.
- Locking.Locked.UnsafeAccess, Locking.DoubleBuffered.Inner and Locking.DoubleBuffered.Outer return the slot's value. The source returns a `T&`, through which a caller can change the contents without the lock. Writes through such a reference, and the aliasing they create, are not modelled. The only writes modelled are `Apply`, `OuterLocked` and `Swap`.
- Locking.DoubleBuffered.constructor, `WithInner` and `Empty` take the clearing policy as an argument. The source's default template argument `AfterSwap = clear_outer` is not modelled. Every buffer the controller builds names its policy explicitly.

