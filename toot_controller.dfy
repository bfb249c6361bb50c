/// Model of the FIFO panel controller: its state
/// (boards/parts/controller/toot-mcu-fifo/include/board/controller.hpp) and
/// its stateful operations (boards/parts/controller/toot-mcu-fifo/src/controller.cpp).
/// The reader thread runs as a loop in the caller's thread, a fixed number of
/// rounds standing for the stop predicate.
module TootMcuFifo {
  import opened Services
  import opened Locking
  import opened Fifo
  import opened Protocol

  /// Where the controller's output goes: the UI (the Controller base's
  /// keypress, keyrelease and encoder), the audio manager's MIDI input, and
  /// the log.
  class Sinks {
    var ui: seq<Event>
    var audio: seq<MidiEvent>
    var log: seq<LogLine>

    constructor ()
      ensures Recorded() == NoEffects
    {
      ui, audio, log := [], [], [];
    }

    function Recorded(): Effects
      reads this
    {
      Effects(ui, audio, log)
    }

    /// `keypress(key)`.
    method Keypress(key: KeyCode)
      modifies this
      ensures Recorded() == Then(old(Recorded()), Effects([KeyPress(key)], [], []))
    {
      ui := ui + [KeyPress(key)];
    }

    /// `keyrelease(key)`.
    method Keyrelease(key: KeyCode)
      modifies this
      ensures Recorded() == Then(old(Recorded()), Effects([KeyRelease(key)], [], []))
    {
      ui := ui + [KeyRelease(key)];
    }

    /// `encoder(ev)`.
    method EncoderTurned(ev: EncoderEvent)
      modifies this
      ensures Recorded() == Then(old(Recorded()), Effects([Turn(ev)], [], []))
    {
      ui := ui + [Turn(ev)];
    }

    /// `AudioManager::current().send_midi_event(ev)`.
    method SendMidi(ev: MidiEvent)
      modifies this
      ensures Recorded() == Then(old(Recorded()), Effects([], [ev], []))
    {
      audio := audio + [ev];
    }

    /// `LOGI` / `LOGE`.
    method Log(line: LogLine)
      modifies this
      ensures Recorded() == Then(old(Recorded()), Effects([], [], [line]))
    {
      log := log + [line];
    }
  }

  /// A line the reader hands to `handle_message` can be handled when the
  /// delimiter is not an opcode that takes an argument: a one-byte line is
  /// the delimiter alone.
  lemma ReadLineHandleable(rs: seq<OsReply>, delim: bv8)
    requires !TakesArgument(delim)
    ensures ReadLineOf(rs, delim).0.Success? ==> Handleable(ReadLineOf(rs, delim).0.value)
  {
    ReadLineShape(rs, delim);
  }

  /// The reader lambda's treatment of one read_line result: a line goes to
  /// `handle_message`; `empty_buffer` is silent; any other error is logged.
  function LineEffects(res: Result<seq<bv8>>, sendMidi: bool): Effects
    requires res.Success? ==> Handleable(res.value)
  {
    match res
    case Success(bytes) => MessageEffects(bytes, sendMidi)
    case Failure(code) =>
      if code == EmptyBuffer then NoEffects else Effects([], [], [ReadFailed(code)])
  }

  /// One round of the reader loop on a script: what it emits and the
  /// replies left.
  function StepOf(rs: seq<OsReply>, delim: bv8, sendMidi: bool): (Effects, seq<OsReply>)
    requires !TakesArgument(delim)
  {
    ReadLineHandleable(rs, delim);
    var (res, rest) := ReadLineOf(rs, delim);
    (LineEffects(res, sendMidi), rest)
  }

  /// `rounds` rounds of the reader loop.
  function ReaderRun(rs: seq<OsReply>, delim: bv8, sendMidi: bool, rounds: nat): (Effects, seq<OsReply>)
    requires !TakesArgument(delim)
    decreases rounds
  {
    if rounds == 0 then (NoEffects, rs)
    else
      var (e, rest) := StepOf(rs, delim, sendMidi);
      var (e', rest') := ReaderRun(rest, delim, sendMidi, rounds - 1);
      (Then(e, e'), rest')
  }

  /// A round emits nothing exactly when the FIFO had no data; every line
  /// and every other error leaves a trace.
  lemma StepSilentIffEmpty(rs: seq<OsReply>, delim: bv8, sendMidi: bool)
    requires !TakesArgument(delim)
    ensures StepOf(rs, delim, sendMidi).0 == NoEffects <==> ReadLineOf(rs, delim).0 == Failure(EmptyBuffer)
  {
    ReadLineHandleable(rs, delim);
    var res := ReadLineOf(rs, delim).0;
    if res.Success? {
      OneEventPerMessage(res.value, sendMidi);
    }
  }

  /// A read error never reaches the UI or the audio sink, and is logged
  /// exactly when it is not `empty_buffer`.
  lemma StepOnError(rs: seq<OsReply>, delim: bv8, sendMidi: bool)
    requires !TakesArgument(delim)
    requires ReadLineOf(rs, delim).0.Failure?
    ensures var e := StepOf(rs, delim, sendMidi).0;
            && e.ui == [] && e.audio == []
            && (e.log == [] <==> ReadLineOf(rs, delim).0.code == EmptyBuffer)
            && (e.log != [] ==> e.log == [ReadFailed(ReadLineOf(rs, delim).0.code)])
  {
  }

  /// A message delivered byte by byte and ended by the delimiter is handled
  /// exactly once, and the round consumes nothing after it.
  lemma StepHandlesDeliveredLine(line: seq<bv8>, rest: seq<OsReply>, delim: bv8, sendMidi: bool)
    requires !TakesArgument(delim)
    requires |line| > 0 && line[|line| - 1] == delim
    requires forall i :: 0 <= i < |line| - 1 ==> line[i] != delim
    ensures Handleable(line)
    ensures StepOf(Singles(line) + rest, delim, sendMidi) == (MessageEffects(line, sendMidi), rest)
  {
    ReadLineOfSingles(line, rest, delim);
    ReadLineHandleable(Singles(line) + rest, delim);
  }

  /// With no data on the FIFO the reader spins silently.
  lemma {:induction false} ReaderIdleSilent(delim: bv8, sendMidi: bool, rounds: nat)
    requires !TakesArgument(delim)
    ensures ReaderRun([], delim, sendMidi, rounds) == (NoEffects, [])
    decreases rounds
  {
    if rounds > 0 {
      assert ReadLineOf([], delim) == (Failure(EmptyBuffer), []);
      ReaderIdleSilent(delim, sendMidi, rounds - 1);
      ThenAssociative(NoEffects, NoEffects, NoEffects);
    }
  }

  /// Pressing and releasing S0, each message one line ended by `delim`,
  /// plays note 47 on and off with routing on.
  lemma ReaderPlaysS0(delim: bv8)
    requires !TakesArgument(delim) && delim != 0x20 && delim != 0x21 && delim != KeyByte(Step(0))
    ensures ReaderRun(Singles([0x20, KeyByte(Step(0)), delim]) + Singles([0x21, KeyByte(Step(0)), delim]), delim, true, 2)
         == (Effects([], [NoteOn(47), NoteOff(47)], [PressedNote(47), ReleasedNote(47)]), [])
  {
    var down, up := [0x20, KeyByte(Step(0)), delim], [0x21, KeyByte(Step(0)), delim];
    MidiNoteOfKey(Step(0));
    StepHandlesDeliveredLine(down, Singles(up), delim, true);
    assert MessageEffects(down, true) == Effects([], [NoteOn(47)], [PressedNote(47)]);
    assert Singles(up) + [] == Singles(up);
    StepHandlesDeliveredLine(up, [], delim, true);
    assert MessageEffects(up, true) == Effects([], [NoteOff(47)], [ReleasedNote(47)]);
    var rs := Singles(down) + Singles(up);
    assert ReaderRun(Singles(up), delim, true, 1) == (Then(MessageEffects(up, true), NoEffects), []);
    assert ReaderRun(rs, delim, true, 2)
        == (Then(MessageEffects(down, true), Then(MessageEffects(up, true), NoEffects)), []);
    ThenAssociative(MessageEffects(up, true), NoEffects, NoEffects);
    assert [NoteOn(47)] + [NoteOff(47)] == [NoteOn(47), NoteOff(47)];
    assert [PressedNote(47)] + [ReleasedNote(47)] == [PressedNote(47), ReleasedNote(47)];
  }

  /// `TOOT_MCU_FIFO_Controller`: the device, the two double buffers with
  /// their clearing policies, and the MIDI routing flag.
  class FifoController {
    const fifo: Device
    const events: DoubleBuffered<Event>
    const writeBuffer: DoubleBuffered<bv8>
    var sendMidi: bool
    const sinks: Sinks

    ghost predicate Valid()
      reads this, events, writeBuffer
    {
      && events.Valid() && events.policy == ClearInner
      && writeBuffer.Valid() && writeBuffer.policy == ClearOuter
      && events.store as object != writeBuffer.store as object
    }

    /// The constructor once the device is open: empty buffers, MIDI routing
    /// on.
    constructor (replies: seq<OsReply>, sinks: Sinks)
      ensures Valid() && sendMidi && this.sinks == sinks
      ensures fresh(fifo) && fifo.replies == replies && fifo.sent == []
      ensures fresh(events) && fresh(events.store) && events.State() == View(0, [], [])
      ensures fresh(writeBuffer) && fresh(writeBuffer.store) && writeBuffer.State() == View(0, [], [])
    {
      fifo := new Device(replies);
      events := new DoubleBuffered.Empty(ClearInner);
      writeBuffer := new DoubleBuffered.Empty(ClearOuter);
      sendMidi := true;
      this.sinks := sinks;
    }

    /// `insert_key_event(cmd, key)`.
    method InsertKeyEvent(cmd: Command, key: KeyCode)
      requires cmd == KeyDown || cmd == KeyUp
      modifies sinks
      ensures sinks.Recorded() == Then(old(sinks.Recorded()), KeyEventEffects(cmd, key))
    {
      if cmd == KeyDown {
        sinks.Keypress(key);
      } else {
        sinks.Keyrelease(key);
      }
    }

    /// `insert_key_or_midi(cmd, args, do_send_midi)`.
    method InsertKeyOrMidi(cmd: Command, args: seq<bv8>, doSendMidi: bool)
      requires cmd == KeyDown || cmd == KeyUp
      requires |args| > 0
      modifies sinks
      ensures sinks.Recorded() == Then(old(sinks.Recorded()), KeyOrMidiEffects(cmd, args, doSendMidi))
    {
      var key := args[0];
      if !doSendMidi {
        InsertKeyEvent(cmd, key);
        return;
      }
      match MidiNote(key)
      case Some(note) =>
        if cmd == KeyDown {
          sinks.SendMidi(NoteOn(note));
          sinks.Log(PressedNote(note));
        } else {
          sinks.SendMidi(NoteOff(note));
          sinks.Log(ReleasedNote(note));
        }
      case None =>
        InsertKeyEvent(cmd, key);
    }

    /// `handle_message(bytes)`.
    method HandleMessage(bytes: seq<bv8>)
      requires Handleable(bytes)
      modifies sinks
      ensures sinks.Recorded() == Then(old(sinks.Recorded()), MessageEffects(bytes, sendMidi))
    {
      var args := bytes[1..];
      match CommandOf(bytes[0])
      case Some(KeyUp) => InsertKeyOrMidi(KeyUp, args, sendMidi);
      case Some(KeyDown) => InsertKeyOrMidi(KeyDown, args, sendMidi);
      case Some(BlueEncStep) => sinks.EncoderTurned(EncoderEvent(Blue, ToInt8(args[0])));
      case Some(GreenEncStep) => sinks.EncoderTurned(EncoderEvent(Green, ToInt8(args[0])));
      case Some(YellowEncStep) => sinks.EncoderTurned(EncoderEvent(Yellow, ToInt8(args[0])));
      case Some(RedEncStep) => sinks.EncoderTurned(EncoderEvent(Red, ToInt8(args[0])));
      case _ => sinks.Log(Unparsable);
    }

    /// `queue_message(message)`: append to the write buffer's outer slot.
    method QueueMessage(message: seq<bv8>)
      requires Valid()
      modifies writeBuffer.store
      ensures Valid()
      ensures writeBuffer.State() == old(writeBuffer.State()).(outer := old(writeBuffer.Outer()) + message)
      ensures events.State() == old(events.State())
    {
      var _ := writeBuffer.OuterLocked((b: seq<bv8>) => (b + message, ()));
    }

    /// One pass of the reader lambda's body.
    method ReaderStep(delim: bv8)
      requires !TakesArgument(delim)
      modifies fifo`replies, sinks
      ensures (sinks.Recorded(), fifo.replies)
           == (Then(old(sinks.Recorded()), StepOf(old(fifo.replies), delim, sendMidi).0), StepOf(old(fifo.replies), delim, sendMidi).1)
    {
      ReadLineHandleable(fifo.replies, delim);
      var r := fifo.ReadLine(delim);
      match r
      case Success(bytes) =>
        HandleMessage(bytes);
      case Failure(code) =>
        if code != EmptyBuffer {
          sinks.Log(ReadFailed(code));
        } else {
          ThenAssociative(sinks.Recorded(), NoEffects, NoEffects);
        }
    }

    /// The reader thread's `while (should_run())` loop, for a stop predicate
    /// that holds `rounds` times.
    method RunReader(delim: bv8, rounds: nat)
      requires !TakesArgument(delim)
      modifies fifo`replies, sinks
      ensures (sinks.Recorded(), fifo.replies)
           == (Then(old(sinks.Recorded()), ReaderRun(old(fifo.replies), delim, sendMidi, rounds).0), ReaderRun(old(fifo.replies), delim, sendMidi, rounds).1)
    {
      var left := rounds;
      while left > 0
        invariant Then(sinks.Recorded(), ReaderRun(fifo.replies, delim, sendMidi, left).0)
               == Then(old(sinks.Recorded()), ReaderRun(old(fifo.replies), delim, sendMidi, rounds).0)
        invariant ReaderRun(fifo.replies, delim, sendMidi, left).1 == ReaderRun(old(fifo.replies), delim, sendMidi, rounds).1
        decreases left
      {
        ghost var before, rs := sinks.Recorded(), fifo.replies;
        ReaderStep(delim);
        ThenAssociative(before, StepOf(rs, delim, sendMidi).0, ReaderRun(fifo.replies, delim, sendMidi, left - 1).0);
        left := left - 1;
      }
      ThenAssociative(sinks.Recorded(), NoEffects, NoEffects);
    }

    /// `set_color(led, color)`: not implemented on this board.
    method SetColor(led: LED, color: LEDColor)
      ensures unchanged(this, sinks, fifo)
    {
    }

    /// `flush_leds()`: not implemented on this board.
    method FlushLeds()
      ensures unchanged(this, sinks, fifo)
    {
    }

    /// `clear_leds()`: not implemented on this board.
    method ClearLeds()
      ensures unchanged(this, sinks, fifo)
    {
    }
  }

  /// What `make_or_dummy` hands back.
  datatype Handle = Real(controller: FifoController) | Dummy

  /// `make_or_dummy()`: `fd` is what open() returned for the device. The
  /// FIFO constructor throws on a negative descriptor; the throw is caught,
  /// logged, and the dummy controller is returned instead.
  method MakeOrDummy(sinks: Sinks, fd: int, replies: seq<OsReply>) returns (h: Handle)
    modifies sinks
    ensures fd >= 0 ==> && h.Real? && fresh(h.controller) && h.controller.Valid()
                        && h.controller.sendMidi && h.controller.sinks == sinks
                        && fresh(h.controller.fifo) && h.controller.fifo.replies == replies
                        && h.controller.fifo.sent == []
                        && fresh(h.controller.events) && fresh(h.controller.events.store)
                        && h.controller.events.State() == View(0, [], [])
                        && fresh(h.controller.writeBuffer) && fresh(h.controller.writeBuffer.store)
                        && h.controller.writeBuffer.State() == View(0, [], [])
                        && sinks.Recorded() == old(sinks.Recorded())
    ensures fd < 0 ==> h == Dummy && sinks.Recorded() == Then(old(sinks.Recorded()), Effects([], [], [FellBackToDummy]))
  {
    if fd < 0 {
      sinks.Log(FellBackToDummy);
      return Dummy;
    }
    var c := new FifoController(replies, sinks);
    h := Real(c);
  }
}
