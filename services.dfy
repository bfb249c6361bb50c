/// Value types of the controller service (src/services/controller.hpp):
/// the key enumerations and their byte encoding, the input events, and
/// LED colours. All of it is pure: constants, shifts and masks.
module Services {

  datatype Option<T> = None | Some(value: T)

  /// The four rotary encoders; the ordinal is the enum's byte value.
  datatype Encoder = Blue | Green | Yellow | Red {
    function Ordinal(): (o: bv8)
      ensures o < 4
    {
      match this
      case Blue => 0
      case Green => 1
      case Yellow => 2
      case Red => 3
    }
  }

  /// The fixed-purpose keys (FuncKey), numbered 0..20.
  datatype FuncKey =
    | Master | Plus | Minus | Sends | Routing | Rec | Fx1 | Fx2 | Play
    | Looper | Sequencer | Sampler | Settings | Arp | Synth | Envelope
    | External | Shift | Slots | Twist1 | Twist2
  {
    function Index(): (i: bv8)
      ensures i <= 20
    {
      match this
      case Master => 0     case Plus => 1       case Minus => 2
      case Sends => 3      case Routing => 4    case Rec => 5
      case Fx1 => 6        case Fx2 => 7        case Play => 8
      case Looper => 9     case Sequencer => 10 case Sampler => 11
      case Settings => 12  case Arp => 13       case Synth => 14
      case Envelope => 15  case External => 16  case Shift => 17
      case Slots => 18     case Twist1 => 19    case Twist2 => 20
    }
  }

  /// ChannelKey N0..N9 and SeqKey N0..N15 are plain numbered enums.
  type ChannelKey = n: bv8 | n < 10
  type SeqKey = n: bv8 | n < 16

  /// A physical key: an encoder click, a function key, a channel key (C0..C9)
  /// or a sequencer key (S0..S15).
  datatype Key =
    | Click(encoder: Encoder)
    | Func(func: FuncKey)
    | Channel(channel: ChannelKey)
    | Step(step: SeqKey)

  /// The byte a `Key` holds at run time. Messages carry raw key bytes, and
  /// the controller converts them to `Key` unchecked, so events carry these.
  type KeyCode = bv8

  /// The two high bits of a key's byte: 0 encoder clicks, 1 function keys,
  /// 2 channel keys, 3 sequencer keys.
  function Group(k: Key): bv8 {
    match k
    case Click(_) => 0
    case Func(_) => 1
    case Channel(_) => 2
    case Step(_) => 3
  }

  /// The sub-enum value a key is built from; every one fits in six bits.
  function Index(k: Key): (i: bv8)
    ensures i < 64
  {
    match k
    case Click(e) => e.Ordinal()
    case Func(f) => f.Index()
    case Channel(n) => n
    case Step(n) => n
  }

  /// The Key enum's value: `(group << 6) | index`.
  function KeyByte(k: Key): KeyCode {
    (Group(k) << 6) | Index(k)
  }

  function EncoderOf(i: bv8): Option<Encoder> {
    match i
    case 0 => Some(Blue)
    case 1 => Some(Green)
    case 2 => Some(Yellow)
    case 3 => Some(Red)
    case _ => None
  }

  function FuncKeyOf(i: bv8): Option<FuncKey> {
    match i
    case 0 => Some(Master)     case 1 => Some(Plus)       case 2 => Some(Minus)
    case 3 => Some(Sends)      case 4 => Some(Routing)    case 5 => Some(Rec)
    case 6 => Some(Fx1)        case 7 => Some(Fx2)        case 8 => Some(Play)
    case 9 => Some(Looper)     case 10 => Some(Sequencer) case 11 => Some(Sampler)
    case 12 => Some(Settings)  case 13 => Some(Arp)       case 14 => Some(Synth)
    case 15 => Some(Envelope)  case 16 => Some(External)  case 17 => Some(Shift)
    case 18 => Some(Slots)     case 19 => Some(Twist1)    case 20 => Some(Twist2)
    case _ => None
  }

  /// Reference decoder for key bytes: split the byte into group and index
  /// and look the index up in the group's enum. It names, for every byte,
  /// the one Key that holds it, if any.
  function KeyOf(b: KeyCode): Option<Key> {
    var group, index := b >> 6, b & 0x3F;
    if group == 0 then
      match EncoderOf(index)
      case Some(e) => Some(Click(e))
      case None => None
    else if group == 1 then
      match FuncKeyOf(index)
      case Some(f) => Some(Func(f))
      case None => None
    else if group == 2 then
      if index < 10 then Some(Channel(index)) else None
    else
      if index < 16 then Some(Step(index)) else None
  }

  lemma EncoderRoundTrip(e: Encoder)
    ensures EncoderOf(e.Ordinal()) == Some(e)
  {
  }

  lemma FuncKeyRoundTrip(f: FuncKey)
    ensures FuncKeyOf(f.Index()) == Some(f)
  {
  }

  /// The group and index can be read back from a key's byte.
  lemma KeyByteFields(k: Key)
    ensures KeyByte(k) >> 6 == Group(k)
    ensures KeyByte(k) & 0x3F == Index(k)
  {
    var g, i := Group(k), Index(k);
    assert g < 4 && i < 64;
    assert ((g << 6) | i) >> 6 == g && ((g << 6) | i) & 0x3F == i;
  }

  /// Decoding a key's byte gives the key back.
  lemma KeyByteRoundTrip(k: Key)
    ensures KeyOf(KeyByte(k)) == Some(k)
  {
    KeyByteFields(k);
    match k
    case Click(e) => EncoderRoundTrip(e);
    case Func(f) => FuncKeyRoundTrip(f);
    case Channel(n) =>
    case Step(n) =>
  }

  /// Whatever the decoder names is the key that holds that byte.
  lemma KeyOfSound(b: KeyCode)
    ensures KeyOf(b).Some? ==> KeyByte(KeyOf(b).value) == b
  {
    var group, index := b >> 6, b & 0x3F;
    assert b == (group << 6) | index;
    if KeyOf(b).Some? {
      var k := KeyOf(b).value;
      assert Group(k) == group;
      if group == 0 {
        assert k.Click? && EncoderOf(index) == Some(k.encoder);
      } else if group == 1 {
        assert k.Func? && FuncKeyOf(index) == Some(k.func);
      }
      assert Index(k) == index;
    }
  }

  /// Every Key value has its own byte: all Key enum values are distinct.
  lemma KeyByteInjective(a: Key, b: Key)
    ensures KeyByte(a) == KeyByte(b) ==> a == b
  {
    KeyByteRoundTrip(a);
    KeyByteRoundTrip(b);
  }

  /// The byte, read as a number, is group * 64 + index.
  lemma KeyByteValue(k: Key)
    ensures KeyByte(k) as int == Group(k) as int * 64 + Index(k) as int
  {
    var g, i := Group(k), Index(k);
    assert g < 4 && i < 64;
    assert (g << 6) | i == g * 64 + i;
  }

  /// The encoder-click keys are the encoder ordinals 0..3.
  lemma ClickKeysAreOrdinals(e: Encoder)
    ensures KeyByte(Click(e)) == e.Ordinal()
    ensures KeyByte(Click(e)) < 4
  {
  }

  /// EncoderEvent: which encoder turned, and by how many steps (negative
  /// is counter-clockwise).
  datatype EncoderEvent = EncoderEvent(encoder: Encoder, steps: int)

  /// `Controller::Event`: the variant of an encoder turn, a key press and a
  /// key release.
  datatype Event =
    | Turn(turn: EncoderEvent)
    | KeyPress(key: KeyCode)
    | KeyRelease(key: KeyCode)

  datatype LED = LED(key: Key)

  /// The source's std::uint8_t and std::uint32_t.
  newtype uint8 = x: int | 0 <= x < 0x100
  newtype uint32 = x: int | 0 <= x < 0x1_0000_0000

  /// `static_cast<std::uint8_t>`: keep the low eight bits.
  function Narrow(x: int): uint8 {
    (x % 0x100) as uint8
  }

  /// An RGB colour with one byte per channel.
  datatype LEDColor = LEDColor(r: uint8, g: uint8, b: uint8) {

    /// `operator+`: channelwise sum, each cast back to a byte.
    function Plus(o: LEDColor): LEDColor {
      LEDColor(Narrow(r as int + o.r as int), Narrow(g as int + o.g as int), Narrow(b as int + o.b as int))
    }

    /// `operator==`: channelwise comparison.
    predicate Equals(o: LEDColor) {
      r == o.r && g == o.g && b == o.b
    }
  }

  /// `LEDColor()`: all channels zero.
  const DefaultColor := LEDColor(0, 0, 0)

  /// `LEDColor(uint32 rgb)`: `(rgb >> 16) & 0xFF`, `(rgb >> 8) & 0xFF` and
  /// `rgb & 0xFF`; on an unsigned value a right shift by k is division by
  /// 2^k and masking with 0xFF is the remainder modulo 256.
  function FromRgb(rgb: uint32): LEDColor {
    LEDColor(((rgb / 0x1_0000) % 0x100) as uint8, ((rgb / 0x100) % 0x100) as uint8, (rgb % 0x100) as uint8)
  }

  /// The 24-bit packing that FromRgb unpacks.
  function ToRgb(c: LEDColor): uint32 {
    (c.r as int * 0x1_0000 + c.g as int * 0x100 + c.b as int) as uint32
  }

  const Black := FromRgb(0x000000)
  const White := FromRgb(0xFFFFFF)
  const BlueColor := FromRgb(0x0000FF)
  const GreenColor := FromRgb(0x00FF00)
  const YellowColor := FromRgb(0x888800)
  const RedColor := FromRgb(0xFF0000)

  lemma RgbRoundTrip(c: LEDColor)
    ensures FromRgb(ToRgb(c)) == c
  {
  }

  /// Division by one of the byte-aligned powers of two is determined by
  /// quotient and remainder.
  lemma DivModUnique(x: int, q: int, r: int, d: int)
    requires d == 0x100 || d == 0x1_0000 || d == 0x100_0000
    requires 0 <= r < d && x == q * d + r
    ensures x / d == q && x % d == r
  {
    if d == 0x100 {
      assert x == q * 0x100 + r;
    } else if d == 0x1_0000 {
      assert x == q * 0x1_0000 + r;
    } else {
      assert x == q * 0x100_0000 + r;
    }
  }

  /// An unsigned 32-bit value split into its four bytes.
  lemma Bytes(x: int) returns (b3: int, b2: int, b1: int, b0: int)
    requires 0 <= x < 0x1_0000_0000
    ensures 0 <= b3 < 0x100 && 0 <= b2 < 0x100 && 0 <= b1 < 0x100 && 0 <= b0 < 0x100
    ensures x == b3 * 0x100_0000 + b2 * 0x1_0000 + b1 * 0x100 + b0
  {
    b0 := x % 0x100;
    var t1 := x / 0x100;
    b1 := t1 % 0x100;
    var t2 := t1 / 0x100;
    b2, b3 := t2 % 0x100, t2 / 0x100;
  }

  /// The bits above 23 never reach the colour, and the low 24 bits all do.
  lemma FromRgbIgnoresHighByte(rgb: uint32)
    ensures FromRgb(rgb) == FromRgb(rgb % 0x100_0000)
    ensures ToRgb(FromRgb(rgb)) == rgb % 0x100_0000
  {
    var x := rgb as int;
    var b3, b2, b1, b0 := Bytes(x);
    var low := b2 * 0x1_0000 + b1 * 0x100 + b0;
    DivModUnique(x, b3, low, 0x100_0000);
    // red: bits 16..23
    DivModUnique(x, b3 * 0x100 + b2, b1 * 0x100 + b0, 0x1_0000);
    DivModUnique(b3 * 0x100 + b2, b3, b2, 0x100);
    DivModUnique(low, b2, b1 * 0x100 + b0, 0x1_0000);
    DivModUnique(b2, 0, b2, 0x100);
    // green: bits 8..15
    DivModUnique(x, b3 * 0x1_0000 + b2 * 0x100 + b1, b0, 0x100);
    DivModUnique(b3 * 0x1_0000 + b2 * 0x100 + b1, b3 * 0x100 + b2, b1, 0x100);
    DivModUnique(low, b2 * 0x100 + b1, b0, 0x100);
    DivModUnique(b2 * 0x100 + b1, b2, b1, 0x100);
    assert FromRgb(rgb) == LEDColor(b2 as uint8, b1 as uint8, b0 as uint8);
    assert FromRgb(rgb % 0x100_0000) == LEDColor(b2 as uint8, b1 as uint8, b0 as uint8);
  }

  /// `+` adds each channel and drops the carry out of bit 7.
  lemma PlusWraps(a: LEDColor, c: LEDColor)
    ensures a.Plus(c).r as int == if a.r as int + c.r as int < 0x100 then a.r as int + c.r as int else a.r as int + c.r as int - 0x100
    ensures a.Plus(c).g as int == if a.g as int + c.g as int < 0x100 then a.g as int + c.g as int else a.g as int + c.g as int - 0x100
    ensures a.Plus(c).b as int == if a.b as int + c.b as int < 0x100 then a.b as int + c.b as int else a.b as int + c.b as int - 0x100
  {
  }

  /// `==` holds exactly when the colours are the same value.
  lemma EqualsIsEquality(a: LEDColor, c: LEDColor)
    ensures a.Equals(c) <==> a == c
  {
  }

  lemma NamedColors()
    ensures DefaultColor == Black == LEDColor(0, 0, 0)
    ensures White == LEDColor(0xFF, 0xFF, 0xFF)
    ensures BlueColor == LEDColor(0, 0, 0xFF)
    ensures GreenColor == LEDColor(0, 0xFF, 0)
    ensures YellowColor == LEDColor(0x88, 0x88, 0)
    ensures RedColor == LEDColor(0xFF, 0, 0)
  {
  }
}
