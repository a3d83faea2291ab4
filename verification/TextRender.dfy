/**
 * `kf::ui::TextRender`: draws the UI as text into a caller-supplied character
 * buffer, tracking the row and column of a virtual display of `rows_total`
 * rows of `row_max_length` characters, and hands the finished text to a
 * callback.
 *
 * The text written since `prepare` is `buffer[..bufferCursor]`; the ghost
 * field `view` holds it with the display position, and every operation is
 * proved against `TextOutput.Put` on that view.
 */
module TextRender {
  import opened CInt
  import opened Wrappers
  import opened TextOutput

  class TextRender {
    /** `config.row_max_length` and `config.rows_total`. */
    const rowMaxLength: U8
    const rowsTotal: U8
    /** `config.buffer`; `attached` is false for a buffer whose data pointer is null. */
    const buffer: array<char>
    const attached: bool
    /** Whether `config.on_render_finish` is set. */
    const notify: bool

    var bufferCursor: nat
    var cursorRow: nat
    var cursorCol: nat
    var contrastMode: bool

    /** The text written since `prepare` and the position on the display. */
    ghost var view: Text

    ghost predicate Valid()
      reads this, buffer
    {
      && bufferCursor <= buffer.Length
      && cursorRow <= rowsTotal && cursorCol <= rowMaxLength
      && (!attached ==> buffer.Length == 0)
      && view == Text(buffer[..bufferCursor], cursorRow, cursorCol, contrastMode)
    }

    /** The limits `write` checks; they never change. */
    function Lim(): Limits
    {
      Limits(buffer.Length, rowsTotal, rowMaxLength)
    }

    constructor (rowMaxLength: U8, rowsTotal: U8, storage: Option<array<char>>, notify: bool)
      ensures Valid() && view == Text([], 0, 0, false)
      ensures this.rowMaxLength == rowMaxLength && this.rowsTotal == rowsTotal && this.notify == notify
      ensures attached == storage.Some? && (storage.Some? ==> buffer == storage.value)
    {
      this.rowMaxLength := rowMaxLength;
      this.rowsTotal := rowsTotal;
      this.notify := notify;
      if storage.Some? {
        buffer := storage.value;
        attached := true;
      } else {
        buffer := new char[0];
        attached := false;
      }
      bufferCursor, cursorRow, cursorCol, contrastMode := 0, 0, 0, false;
      view := Text([], 0, 0, false);
    }

    /**
     * `widgetsAvailableImpl`: the rows not yet used, `rows_total - cursor_row` as a `usize`.
     * `TextBufferRender` repeats the same definition, as its source does.
     */
    function WidgetsAvailable(): (n: nat)
      reads this
      ensures Valid() ==> n == rowsTotal - cursorRow && n <= rowsTotal
    {
      ToU32(rowsTotal - cursorRow)
    }

    /** `prepareImpl`: writing starts again at the front of the buffer; the display position is kept. */
    method Prepare()
      requires Valid()
      modifies this
      ensures Valid() && view == old(view).(out := [])
    {
      bufferCursor := 0;
      view := view.(out := []);
    }

    /**
     * `finishImpl`: with a buffer, the display position returns to the top
     * left, the last character written becomes NUL, and the callback, when
     * set, receives the text; the result is what it receives.
     */
    method Finish() returns (shown: Option<seq<char>>)
      requires Valid() && (attached ==> bufferCursor >= 1)
      modifies this, buffer
      ensures Valid()
      ensures !attached ==> view == old(view) && shown == None
      ensures attached ==> view == old(view).(out := old(view).out[..|old(view).out| - 1] + ['\0'], row := 0, col := 0)
      ensures shown == if attached && notify then Some(view.out) else None
    {
      if !attached {
        return None;
      }
      cursorRow := 0;
      cursorCol := 0;
      buffer[bufferCursor - 1] := '\0';
      assert buffer[..bufferCursor] == old(buffer[..bufferCursor])[..bufferCursor - 1] + ['\0'];
      view := Text(buffer[..bufferCursor], cursorRow, cursorCol, contrastMode);
      shown := if notify then Some(buffer[..bufferCursor]) else None;
    }

    /** `write(c)`: returns 1 if `c` was stored. */
    method Write(c: char) returns (n: nat)
      requires Valid()
      modifies this, buffer
      ensures Valid() && (view, n) == Put(old(view), c, Lim())
    {
      if bufferCursor >= buffer.Length {
        return 0;
      }
      if cursorRow >= rowsTotal {
        return 0;
      }
      if c == '\n' {
        cursorRow := cursorRow + 1;
        cursorCol := 0;
      } else {
        if cursorCol >= rowMaxLength {
          // The second test always holds here: a full buffer returned above.
          if contrastMode && bufferCursor < buffer.Length {
            buffer[bufferCursor] := ContrastOff;
            assert buffer[..bufferCursor + 1] == old(buffer[..bufferCursor]) + [ContrastOff];
            bufferCursor := bufferCursor + 1;
            contrastMode := false;
            view := Text(buffer[..bufferCursor], cursorRow, cursorCol, contrastMode);
          }
          return 0;
        }
        cursorCol := cursorCol + 1;
      }
      buffer[bufferCursor] := c;
      assert buffer[..bufferCursor + 1] == old(buffer[..bufferCursor]) + [c];
      bufferCursor := bufferCursor + 1;
      view := Text(buffer[..bufferCursor], cursorRow, cursorCol, contrastMode);
      return 1;
    }

    /** `print(StringView)`: the characters up to the first NUL ("nullptr" for a null view); returns how many were stored. */
    method PrintString(s: Option<seq<char>>) returns (written: nat)
      requires Valid()
      modifies this, buffer
      ensures Valid() && (view, written) == PutAll(old(view), Shown(s), Lim())
    {
      var cs := if s.None? then "nullptr" else s.value;
      ghost var start := view;
      ghost var shown := UpToNul(cs);
      written := 0;
      var k := 0;
      while k < |cs| && cs[k] != '\0'
        invariant Valid() && k <= |shown|
        invariant (view, written) == PutAll(start, shown[..k], Lim())
      {
        NulScan(cs, shown, k);
        var w := WriteAt(start, shown, k, cs[k], written);
        written := written + w;
        k := k + 1;
      }
      NulScan(cs, shown, k);
      assert shown[..k] == shown;
    }

    /** `print(i32)`: the decimal notation of `integer`; returns how many characters were stored. */
    method PrintInt(integer: I32) returns (written: nat)
      requires Valid() && integer != I32_MIN
      modifies this, buffer
      ensures Valid() && (view, written) == PutAll(old(view), Decimal(integer), Lim())
    {
      if integer == 0 {
        written := WriteNext(view, [], '0', "0", 0);
      } else {
        written := PrintNonzero(integer);
      }
    }

    /** `print(i32)` past its zero test: the sign, then the digits of the magnitude. */
    method PrintNonzero(integer: I32) returns (written: nat)
      requires Valid() && integer != I32_MIN && integer != 0
      modifies this, buffer
      ensures Valid() && (view, written) == PutAll(old(view), Decimal(integer), Lim())
    {
      ghost var start := view;
      var signCount := WriteSign(integer < 0);
      ghost var signed := view;
      var magnitude: nat := if integer < 0 then -integer else integer;
      var w := WriteMagnitude(magnitude);
      written := signCount + w;
      PutAllThen(start, SignOf(integer), Digits(magnitude), Lim(), signed, signCount, view, w);
      assert Decimal(integer) == SignOf(integer) + Digits(magnitude);
    }

    /** The '-' of a negative number. */
    method WriteSign(negative: bool) returns (written: nat)
      requires Valid()
      modifies this, buffer
      ensures Valid() && (view, written) == PutAll(old(view), if negative then "-" else [], Lim())
    {
      written := 0;
      if negative {
        written := WriteNext(view, [], '-', "-", 0);
      }
    }

    /** Both loops of `print(i32)`: the digits of a nonzero magnitude, most significant first. */
    method WriteMagnitude(magnitude: nat) returns (written: nat)
      requires Valid() && magnitude <= I32_MAX
      modifies this, buffer
      ensures Valid() && (view, written) == PutAll(old(view), Digits(magnitude), Lim())
    {
      var digits, total := DigitsBackwards(magnitude);
      written := WriteBackwards(digits, total);
    }

    /** The second loop of `print(i32)`: the digit buffer from its top index down. */
    method WriteBackwards(digits: array<char>, total: nat) returns (written: nat)
      requires Valid() && digits != buffer && total <= digits.Length
      modifies this, buffer
      ensures Valid() && (view, written) == PutAll(old(view), Reversed(digits[..total]), Lim())
    {
      ghost var start := view;
      ghost var ds := digits[..total];
      written := 0;
      var i: int := total - 1;
      while i >= 0
        invariant -1 <= i < total
        invariant Valid() && (view, written) == PutAll(start, Reversed(ds)[..total - 1 - i], Lim())
      {
        ReversedIndex(ds, total - 1 - i);
        var w := WriteAt(start, Reversed(ds), total - 1 - i, digits[i], written);
        written := written + w;
        i := i - 1;
      }
      assert Reversed(ds)[..total] == Reversed(ds);
    }

    /** One turn of the print loops: `write` one more character after the prefix `done` already written from `start`. */
    method WriteNext(ghost start: Text, ghost done: seq<char>, c: char, ghost whole: seq<char>, ghost written: nat) returns (w: nat)
      requires Valid() && whole == done + [c] && PutAll(start, done, Lim()) == (view, written)
      modifies this, buffer
      ensures Valid() && PutAll(start, whole, Lim()) == (view, written + w)
    {
      ghost var mid := view;
      w := Write(c);
      PutAllStep(start, done, c, whole, Lim(), mid, written, view, w);
    }

    /** `WriteNext` for a loop that walks `text` from the front: the character at `k` follows `text[..k]`. */
    method WriteAt(ghost start: Text, ghost text: seq<char>, k: nat, c: char, ghost written: nat) returns (w: nat)
      requires Valid() && k < |text| && text[k] == c && PutAll(start, text[..k], Lim()) == (view, written)
      modifies this, buffer
      ensures Valid() && PutAll(start, text[..k + 1], Lim()) == (view, written + w)
    {
      assert text[..k + 1] == text[..k] + [c];
      w := WriteNext(start, text[..k], c, text[..k + 1], written);
    }

    // The drawing primitives of `Render`.

    /** `titleImpl`: the title, then a line break. */
    method Title(title: Option<seq<char>>)
      requires Valid()
      modifies this, buffer
      ensures Valid() && view == PutAll(old(view), Shown(title) + "\n", Lim()).0
    {
      ghost var start := view;
      var n := PrintString(title);
      var _ := WriteNext(start, Shown(title), '\n', Shown(title) + "\n", n);
    }

    /** `checkboxImpl`: a switch drawn on or off. */
    method Checkbox(enabled: bool)
      requires Valid()
      modifies this, buffer
      ensures Valid() && view == PutAll(old(view), if enabled then "==[ 1 ]" else "[ 0 ]--", Lim()).0
    {
      var text := if enabled then "==[ 1 ]" else "[ 0 ]--";
      WholeView(text);
      var _ := PrintString(Some(text));
    }

    /** `valueImpl(StringView)`. */
    method ValueText(str: Option<seq<char>>)
      requires Valid()
      modifies this, buffer
      ensures Valid() && view == PutAll(old(view), Shown(str), Lim()).0
    {
      var _ := PrintString(str);
    }

    /** `valueImpl(bool)`. */
    method ValueBool(value: bool)
      requires Valid()
      modifies this, buffer
      ensures Valid() && view == PutAll(old(view), if value then "true" else "false", Lim()).0
    {
      var text := if value then "true" else "false";
      WholeView(text);
      var _ := PrintString(Some(text));
    }

    /** `valueImpl(i32)`. */
    method ValueInt(integer: I32)
      requires Valid() && integer != I32_MIN
      modifies this, buffer
      ensures Valid() && view == PutAll(old(view), Decimal(integer), Lim()).0
    {
      var _ := PrintInt(integer);
    }

    /** `arrowImpl`: "-> ". */
    method Arrow()
      requires Valid()
      modifies this, buffer
      ensures Valid() && view == PutAll(old(view), "-> ", Lim()).0
    {
      ghost var start := view;
      var a := WriteNext(start, [], '-', "-", 0);
      var b := WriteNext(start, "-", '>', "->", a);
      var _ := WriteNext(start, "->", ' ', "-> ", a + b);
    }

    /** `colonImpl`: ": ". */
    method Colon()
      requires Valid()
      modifies this, buffer
      ensures Valid() && view == PutAll(old(view), ": ", Lim()).0
    {
      ghost var start := view;
      var a := WriteNext(start, [], ':', ":", 0);
      var _ := WriteNext(start, ":", ' ', ": ", a);
    }

    /** `beginContrastImpl`: the opening marker, subject to `write`; contrast mode is set even if the marker was dropped. */
    method BeginContrast()
      requires Valid()
      modifies this, buffer
      ensures Valid() && view == Put(old(view), ContrastOn, Lim()).0.(contrast := true)
    {
      var _ := Write(ContrastOn);
      contrastMode := true;
      view := view.(contrast := true);
    }

    /** `endContrastImpl`: the closing marker, subject to `write`; contrast mode is cleared either way. */
    method EndContrast()
      requires Valid()
      modifies this, buffer
      ensures Valid() && view == Put(old(view), ContrastOff, Lim()).0.(contrast := false)
    {
      var _ := Write(ContrastOff);
      contrastMode := false;
      view := view.(contrast := false);
    }

    /** `beginBlockImpl`, `endBlockImpl`, `beginAltBlockImpl`, `endAltBlockImpl` and `endWidgetImpl`: one character each. */
    method Delimiter(c: char)
      requires Valid() && c in "[]<>\n"
      modifies this, buffer
      ensures Valid() && view == Put(old(view), c, Lim()).0
    {
      var _ := Write(c);
    }
  }
}
