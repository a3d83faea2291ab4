/**
 * The UI input event: one byte whose three high bits hold the event type and
 * whose five low bits hold a small two's-complement value.
 *
 * The byte is an integer in [0, 256). The masks the source applies are
 * written as the arithmetic they amount to on such a byte: `x & 0x1F` is
 * `x % 32`, `(x & 0xE0) >> 5` is `x / 32`, and OR-ing fields that occupy
 * disjoint bits is adding them.
 */
module Events {
  import opened CInt

  const TypeBits: nat := 3
  const ValueBits: nat := 5
  /** `1 << value_bits`: the low five bits hold the byte modulo this. */
  const FieldSize: nat := 32
  /** `1 << (value_bits - 1)`: bit 4, the sign bit of the five-bit value. */
  const SignBit: nat := 16

  /**
   * The event types. The type field has three bits, so besides the five
   * named enumerators a byte can carry three codes that no enumerator names.
   */
  datatype Type = None | Update | PageCursorMove | WidgetClick | WidgetValueChange
                | Unnamed5 | Unnamed6 | Unnamed7

  /** The enumerator's index in the type field. */
  function Index(t: Type): (i: nat)
    ensures i < 8
  {
    match t
    case None => 0
    case Update => 1
    case PageCursorMove => 2
    case WidgetClick => 3
    case WidgetValueChange => 4
    case Unnamed5 => 5
    case Unnamed6 => 6
    case Unnamed7 => 7
  }

  /** The enumerator's underlying byte: its index shifted past the value bits. */
  function Code(t: Type): (c: U8)
    ensures c % FieldSize == 0
  {
    Index(t) * FieldSize
  }

  datatype Event = Event(storage: U8)

  /** Two's-complement reading of a byte as an `i8`. */
  function AsI8(b: U8): I8
  {
    if b >= 0x80 then b - 0x100 else b
  }

  /** Conversion of an `i8` to its byte (`static_cast<u8>`). */
  function FromI8(v: I8): U8
  {
    v % 0x100
  }

  /**
   * The constructor `(code & type_mask) | (u8(value) & value_mask)`: the
   * value is masked to its low five bits, not clamped.
   */
  function Make(t: Type, v: I8 := 0): Event
  {
    Event(Code(t) + FromI8(v) % FieldSize)
  }

  /** `(storage & type_mask) >> value_bits`, read back as a type. */
  function TypeOf(e: Event): Type
  {
    var field := e.storage / FieldSize;
    if field == 0 then None
    else if field == 1 then Update
    else if field == 2 then PageCursorMove
    else if field == 3 then WidgetClick
    else if field == 4 then WidgetValueChange
    else if field == 5 then Unnamed5
    else if field == 6 then Unnamed6
    else Unnamed7
  }

  /**
   * `storage & value_mask`, sign-extended from bit 4: with the sign bit set
   * the high bits are filled with ones (`result | ~value_mask`).
   */
  function ValueOf(e: Event): (r: I8)
    ensures -16 <= r <= 15
  {
    var result := e.storage % FieldSize;
    if result >= SignBit then AsI8(result + (0x100 - FieldSize)) else AsI8(result)
  }

  /** The five-bit two's-complement wrap of `v`: what a round trip yields. */
  function Wrap5(v: int): int
  {
    var low := v % 32;
    if low >= 16 then low - 32 else low
  }

  function NoneEvent(): Event { Make(None) }
  function UpdateEvent(): Event { Make(Update) }
  function PageCursorMoveEvent(offset: I8): Event { Make(PageCursorMove, offset) }
  function WidgetClickEvent(): Event { Make(WidgetClick) }
  function WidgetValueEvent(value: I8): Event { Make(WidgetValueChange, value) }

  // Arithmetic of the two fields.

  /** A byte made of a type index and a five-bit field splits back into the two. */
  lemma FieldSplit(i: nat, f: nat)
    requires i < 8 && f < FieldSize
    ensures (i * FieldSize + f) / FieldSize == i
    ensures (i * FieldSize + f) % FieldSize == f
  {
    var x := i * FieldSize + f;
    ModShift(f, i, FieldSize);
    ModSmall(f, FieldSize);
    var q := x / FieldSize;
    assert x == q * FieldSize + f;
    assert (q - i) * FieldSize == 0;
  }

  /** Taking the byte first does not change the low five bits. */
  lemma ModOfMod(v: int)
    ensures (v % 0x100) % 32 == v % 32
  {
    var q := v / 0x100;
    assert v == 0x100 * q + v % 0x100;
    ModShift(v % 0x100, 8 * q, 32);
  }

  // Properties of the codec.

  /** The type field holds the type and the value field the value's low five bits. */
  lemma FieldsIndependent(t: Type, v: I8)
    ensures Make(t, v).storage / FieldSize == Index(t)
    ensures Make(t, v).storage % FieldSize == v % 32
  {
    FieldSplit(Index(t), FromI8(v) % FieldSize);
    ModOfMod(v);
  }

  /** The type survives encoding, whatever the value: value bits never reach the type field. */
  lemma TypeRoundTrip(t: Type, v: I8)
    ensures TypeOf(Make(t, v)) == t
  {
    FieldsIndependent(t, v);
  }

  /** The decoded value is the five-bit wrap of the encoded one. */
  lemma ValueWraps(t: Type, v: I8)
    ensures ValueOf(Make(t, v)) == Wrap5(v)
  {
    FieldsIndependent(t, v);
  }

  /** Round trip: every value in [-16, 15] is decoded exactly. */
  lemma {:induction false} ValueRoundTrip(t: Type, v: I8)
    requires -16 <= v <= 15
    ensures ValueOf(Make(t, v)) == v
    ensures TypeOf(Make(t, v)) == t
  {
    ValueWraps(t, v);
    TypeRoundTrip(t, v);
    if v < 0 {
      ModShift(v, 1, 32);
      ModSmall(v + 32, 32);
    } else {
      ModSmall(v, 32);
    }
  }

  /** Out-of-range values are wrapped, not clamped: 16 reads back as -16, -17 as 15. */
  lemma {:induction false} OutOfRangeWraps(t: Type)
    ensures ValueOf(Make(t, 16)) == -16
    ensures ValueOf(Make(t, -17)) == 15
    ensures ValueOf(Make(t, 127)) == -1
  {
    ValueWraps(t, 16);
    assert Wrap5(16) == -16;
    ValueWraps(t, -17);
    assert Wrap5(-17) == 15;
    ValueWraps(t, 127);
    assert Wrap5(127) == -1;
  }

  /** The factory functions carry their type and value; the value-less ones carry 0. */
  lemma {:induction false} Factories(offset: I8)
    requires -16 <= offset <= 15
    ensures TypeOf(NoneEvent()) == None && ValueOf(NoneEvent()) == 0
    ensures TypeOf(UpdateEvent()) == Update && ValueOf(UpdateEvent()) == 0
    ensures TypeOf(WidgetClickEvent()) == WidgetClick && ValueOf(WidgetClickEvent()) == 0
    ensures TypeOf(PageCursorMoveEvent(offset)) == PageCursorMove
    ensures ValueOf(PageCursorMoveEvent(offset)) == offset
    ensures TypeOf(WidgetValueEvent(offset)) == WidgetValueChange
    ensures ValueOf(WidgetValueEvent(offset)) == offset
  {
    ValueRoundTrip(None, 0);
    ValueRoundTrip(Update, 0);
    ValueRoundTrip(WidgetClick, 0);
    ValueRoundTrip(PageCursorMove, offset);
    ValueRoundTrip(WidgetValueChange, offset);
  }
}
