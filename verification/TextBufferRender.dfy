/**
 * `kf::ui::TextBufferRender<N>`: the text renderer that owns its buffer, an
 * `ArrayString<N>`. The renderer calls `push`, `full`, `clear` and
 * `view` on it, which `kf::Array` does not declare; the model takes the
 * buffer to be a string of at most N characters with those operations, and
 * its `size()` to be the number of characters held. The
 * buffer is a sequence here, its capacity the constant `capacity`; `write`
 * and `print` return nothing, and every operation is proved against
 * `TextOutput.Put` on `View()`.
 */
module TextBufferRender {
  import opened CInt
  import opened Wrappers
  import opened TextOutput

  class TextBufferRender {
    /** The template argument N. */
    const capacity: nat
    /** `config.row_max_length` and `config.rows_total`. */
    const rowMaxLength: U8
    const rowsTotal: U8
    /** Whether `config.on_render_finish` is set. */
    const notify: bool

    var buffer: seq<char>
    var cursorRow: U8
    var cursorCol: U8
    var contrastMode: bool

    ghost predicate Valid()
      reads this
    {
      |buffer| <= capacity && cursorRow <= rowsTotal && cursorCol <= rowMaxLength
    }

    /** The text written since `prepare` and the position on the display. */
    function View(): Text
      reads this
    {
      Text(buffer, cursorRow, cursorCol, contrastMode)
    }

    /** The limits `write` checks; they never change. */
    function Lim(): Limits
    {
      Limits(capacity, rowsTotal, rowMaxLength)
    }

    /** A renderer with an empty buffer at the top left of the display; `Array` demands N > 0. */
    constructor (capacity: nat, rowMaxLength: U8, rowsTotal: U8, notify: bool)
      requires capacity > 0
      ensures Valid() && View() == Text([], 0, 0, false)
      ensures this.capacity == capacity && this.rowMaxLength == rowMaxLength
      ensures this.rowsTotal == rowsTotal && this.notify == notify
    {
      this.capacity := capacity;
      this.rowMaxLength := rowMaxLength;
      this.rowsTotal := rowsTotal;
      this.notify := notify;
      buffer, cursorRow, cursorCol, contrastMode := [], 0, 0, false;
    }

    /** `widgetsAvailableImpl`: the rows not yet used, `rows_total - cursor_row` as a `usize`. */
    function WidgetsAvailable(): (n: nat)
      reads this
      ensures Valid() ==> n == rowsTotal - cursorRow && n <= rowsTotal
    {
      ToU32(rowsTotal - cursorRow)
    }

    /** `prepareImpl`: the buffer is cleared; the display position is kept. */
    method Prepare()
      requires Valid()
      modifies this
      ensures Valid() && View() == old(View()).(out := [])
    {
      buffer := [];
    }

    /**
     * `finishImpl`: the display position returns to the top left, the last
     * character becomes NUL, and the callback, when set, receives the
     * buffer; the result is what it receives.
     */
    method Finish() returns (shown: Option<seq<char>>)
      requires Valid() && |buffer| >= 1
      modifies this
      ensures Valid()
      ensures View() == old(View()).(out := old(buffer)[..|old(buffer)| - 1] + ['\0'], row := 0, col := 0)
      ensures shown == if notify then Some(buffer) else None
    {
      cursorRow := 0;
      cursorCol := 0;
      buffer := buffer[..|buffer| - 1] + ['\0'];
      shown := if notify then Some(buffer) else None;
    }

    /** `write(c)`. */
    method Write(c: char)
      requires Valid()
      modifies this
      ensures Valid() && View() == Put(old(View()), c, Lim()).0
    {
      if |buffer| >= capacity {
        return;
      }
      if cursorRow >= rowsTotal {
        return;
      }
      if c == '\n' {
        cursorRow := cursorRow + 1;
        cursorCol := 0;
      } else {
        if cursorCol >= rowMaxLength {
          // The second test always holds here: a full buffer returned above.
          if contrastMode && |buffer| < capacity {
            buffer := buffer + [ContrastOff];
            contrastMode := false;
          }
          return;
        }
        cursorCol := cursorCol + 1;
      }
      buffer := buffer + [c];
    }

    /** One turn of the print loops: `write` the character at `k` of `text` after `text[..k]` was written from `start`. */
    method WriteAt(ghost start: Text, ghost text: seq<char>, k: nat, c: char)
      requires Valid() && k < |text| && text[k] == c && View() == PutAll(start, text[..k], Lim()).0
      modifies this
      ensures Valid() && View() == PutAll(start, text[..k + 1], Lim()).0
    {
      assert text[..k + 1] == text[..k] + [c];
      PutAllSnoc(start, text[..k], c, Lim());
      Write(c);
    }

    /** `print(StringView)`: the characters up to the first NUL, "nullptr" for a null view. */
    method PrintString(s: Option<seq<char>>)
      requires Valid()
      modifies this
      ensures Valid() && View() == PutAll(old(View()), Shown(s), Lim()).0
    {
      var cs := if s.None? then "nullptr" else s.value;
      ghost var start := View();
      ghost var shown := UpToNul(cs);
      var k := 0;
      while k < |cs| && cs[k] != '\0'
        invariant Valid() && k <= |shown|
        invariant View() == PutAll(start, shown[..k], Lim()).0
      {
        NulScan(cs, shown, k);
        WriteAt(start, shown, k, cs[k]);
        k := k + 1;
      }
      NulScan(cs, shown, k);
      assert shown[..k] == shown;
    }

    /** `print(i32)`: the decimal notation of `integer`. */
    method PrintInt(integer: I32)
      requires Valid() && integer != I32_MIN
      modifies this
      ensures Valid() && View() == PutAll(old(View()), Decimal(integer), Lim()).0
    {
      if integer == 0 {
        WriteAt(View(), "0", 0, '0');
      } else {
        PrintNonzero(integer);
      }
    }

    /** `print(i32)` past its zero test: the sign, then the digits of the magnitude. */
    method PrintNonzero(integer: I32)
      requires Valid() && integer != I32_MIN && integer != 0
      modifies this
      ensures Valid() && View() == PutAll(old(View()), Decimal(integer), Lim()).0
    {
      ghost var start := View();
      if integer < 0 {
        WriteAt(start, "-", 0, '-');
      } else {
        assert PutAll(start, [], Lim()).0 == start;
      }
      ghost var signed := View();
      var magnitude: nat := if integer < 0 then -integer else integer;
      var digits, total := DigitsBackwards(magnitude);
      WriteBackwards(digits, total);
      PutAllAppend(start, SignOf(integer), Digits(magnitude), Lim());
      assert Decimal(integer) == SignOf(integer) + Digits(magnitude);
    }

    /** The second loop of `print(i32)`: the digit buffer from its top index down. */
    method WriteBackwards(digits: array<char>, total: nat)
      requires Valid() && total <= digits.Length
      modifies this
      ensures Valid() && View() == PutAll(old(View()), Reversed(digits[..total]), Lim()).0
    {
      ghost var start := View();
      ghost var ds := digits[..total];
      var i: int := total - 1;
      while i >= 0
        invariant -1 <= i < total
        invariant Valid() && View() == PutAll(start, Reversed(ds)[..total - 1 - i], Lim()).0
      {
        ReversedIndex(ds, total - 1 - i);
        WriteAt(start, Reversed(ds), total - 1 - i, digits[i]);
        i := i - 1;
      }
      assert Reversed(ds)[..total] == Reversed(ds);
    }

    // The drawing primitives of `Render`.

    /** `titleImpl`: the title, then a line break. */
    method Title(title: Option<seq<char>>)
      requires Valid()
      modifies this
      ensures Valid() && View() == PutAll(old(View()), Shown(title) + "\n", Lim()).0
    {
      ghost var start := View();
      PrintString(title);
      Write('\n');
      PutAllSnoc(start, Shown(title), '\n', Lim());
    }

    /** `checkboxImpl`: a switch drawn on or off. */
    method Checkbox(enabled: bool)
      requires Valid()
      modifies this
      ensures Valid() && View() == PutAll(old(View()), if enabled then "==[ 1 ]" else "[ 0 ]--", Lim()).0
    {
      var text := if enabled then "==[ 1 ]" else "[ 0 ]--";
      WholeView(text);
      PrintString(Some(text));
    }

    /** `valueImpl(StringView)`. */
    method ValueText(str: Option<seq<char>>)
      requires Valid()
      modifies this
      ensures Valid() && View() == PutAll(old(View()), Shown(str), Lim()).0
    {
      PrintString(str);
    }

    /** `valueImpl(bool)`. */
    method ValueBool(value: bool)
      requires Valid()
      modifies this
      ensures Valid() && View() == PutAll(old(View()), if value then "true" else "false", Lim()).0
    {
      var text := if value then "true" else "false";
      WholeView(text);
      PrintString(Some(text));
    }

    /** `valueImpl(i32)`. */
    method ValueInt(integer: I32)
      requires Valid() && integer != I32_MIN
      modifies this
      ensures Valid() && View() == PutAll(old(View()), Decimal(integer), Lim()).0
    {
      PrintInt(integer);
    }

    /** `arrowImpl`: "-> ". */
    method Arrow()
      requires Valid()
      modifies this
      ensures Valid() && View() == PutAll(old(View()), "-> ", Lim()).0
    {
      ghost var start := View();
      assert PutAll(start, "-> "[..0], Lim()).0 == start;
      WriteAt(start, "-> ", 0, '-');
      WriteAt(start, "-> ", 1, '>');
      WriteAt(start, "-> ", 2, ' ');
      assert "-> "[..3] == "-> ";
    }

    /** `colonImpl`: ": ". */
    method Colon()
      requires Valid()
      modifies this
      ensures Valid() && View() == PutAll(old(View()), ": ", Lim()).0
    {
      ghost var start := View();
      assert PutAll(start, ": "[..0], Lim()).0 == start;
      WriteAt(start, ": ", 0, ':');
      WriteAt(start, ": ", 1, ' ');
      assert ": "[..2] == ": ";
    }

    /** `beginContrastImpl`: the opening marker, subject to `write`; contrast mode is set even if the marker was dropped. */
    method BeginContrast()
      requires Valid()
      modifies this
      ensures Valid() && View() == Put(old(View()), ContrastOn, Lim()).0.(contrast := true)
    {
      Write(ContrastOn);
      contrastMode := true;
    }

    /** `endContrastImpl`: the closing marker, subject to `write`; contrast mode is cleared either way. */
    method EndContrast()
      requires Valid()
      modifies this
      ensures Valid() && View() == Put(old(View()), ContrastOff, Lim()).0.(contrast := false)
    {
      Write(ContrastOff);
      contrastMode := false;
    }

    /** `beginBlockImpl`, `endBlockImpl`, `beginAltBlockImpl`, `endAltBlockImpl` and `endWidgetImpl`: one character each. */
    method Delimiter(c: char)
      requires Valid() && c in "[]<>\n"
      modifies this
      ensures Valid() && View() == Put(old(View()), c, Lim()).0
    {
      Write(c);
    }
  }
}
