/**
 * What the two text renderers have in common: the effect of `write(char)` on
 * the text written so far and on the virtual display's row, column and
 * contrast mode, and the characters `print(StringView)` and `print(i32)`
 * hand to `write`.
 *
 * `kf::ui::TextRender` stores into a caller-supplied buffer and
 * `kf::ui::TextBufferRender` pushes into its own fixed-capacity string, but
 * their `write` decides in the same order with the same limits; both are
 * proved against `Put` below.
 */
module TextOutput {
  import opened CInt
  import opened Wrappers

  /** The text written since `prepare`, and the position on the virtual display. */
  datatype Text = Text(out: seq<char>, row: nat, col: nat, contrast: bool)

  /** The buffer capacity and the display size (`rows_total`, `row_max_length`). */
  datatype Limits = Limits(capacity: nat, rowsTotal: nat, rowMaxLength: nat)

  /** The marker `endContrast` writes, and the one `write` adds when a contrast run is cut off. */
  const ContrastOff: char := '\U{80}'
  /** The marker `beginContrast` writes. */
  const ContrastOn: char := '\U{81}'

  /** The bounds `write` keeps: the buffer, the rows and the current row's width. */
  predicate Within(t: Text, lim: Limits)
  {
    |t.out| <= lim.capacity && t.row <= lim.rowsTotal && t.col <= lim.rowMaxLength
  }

  /**
   * `write(c)`: nothing once the buffer is full or every row is used; a
   * newline moves to the next row; past the row's width a character is
   * dropped, and a contrast run in progress is closed with one marker.
   * The second component is what `write` returns: 1 if `c` was stored.
   */
  function Put(t: Text, c: char, lim: Limits): (r: (Text, nat))
  {
    if |t.out| >= lim.capacity then (t, 0)
    else if t.row >= lim.rowsTotal then (t, 0)
    else if c == '\n' then (t.(out := t.out + [c], row := t.row + 1, col := 0), 1)
    else if t.col >= lim.rowMaxLength then
      if t.contrast then (t.(out := t.out + [ContrastOff], contrast := false), 0) else (t, 0)
    else (t.(out := t.out + [c], col := t.col + 1), 1)
  }

  /** `write` applied to each character of `cs` in turn; the second component sums what it returned. */
  function PutAll(t: Text, cs: seq<char>, lim: Limits): (r: (Text, nat))
    decreases |cs|
  {
    if cs == [] then (t, 0)
    else
      var before := PutAll(t, cs[..|cs| - 1], lim);
      var last := Put(before.0, cs[|cs| - 1], lim);
      (last.0, before.1 + last.1)
  }

  /** The characters behind a view: a null view reads as "nullptr". */
  function Source(s: Option<seq<char>>): seq<char>
  {
    if s.None? then "nullptr" else s.value
  }

  /** The characters `print(StringView)` visits: up to the first NUL, and "nullptr" for a null view. */
  function Shown(s: Option<seq<char>>): (r: seq<char>)
    ensures '\0' !in r
    ensures s.None? ==> r == "nullptr"
    ensures s.Some? ==> r <= s.value && (|r| < |s.value| ==> s.value[|r|] == '\0')
  {
    UpToNul(Source(s))
  }

  /** The loop of `print(StringView)` goes on exactly while it is inside `UpToNul`, reading the same characters. */
  lemma NulScan(cs: seq<char>, shown: seq<char>, k: nat)
    requires shown == UpToNul(cs) && k <= |shown|
    ensures k < |cs| && cs[k] != '\0' <==> k < |shown|
    ensures k < |shown| ==> shown[k] == cs[k]
  {
    if k < |shown| {
      assert shown[k] in shown;
    }
  }

  function UpToNul(s: seq<char>): (r: seq<char>)
    ensures '\0' !in r && r <= s
    ensures |r| < |s| ==> s[|r|] == '\0'
  {
    if s == [] || s[0] == '\0' then [] else [s[0]] + UpToNul(s[1..])
  }

  // Decimal notation.

  function DigitChar(d: nat): (c: char)
    requires d < 10
  {
    (d + '0' as int) as char
  }

  /** The decimal digits of `n`, most significant first; none for 0. */
  function Digits(n: nat): (r: seq<char>)
  {
    if n == 0 then [] else Digits(n / 10) + [DigitChar(n % 10)]
  }

  /** What `print(i32)` hands to `write`: "0", or an optional '-' and the digits of the magnitude. */
  function Decimal(v: int): (r: seq<char>)
  {
    if v == 0 then "0"
    else SignOf(v) + Digits(if v < 0 then -v else v)
  }

  /** The sign `print(i32)` writes before the digits of a nonzero number. */
  function SignOf(v: int): (r: seq<char>)
  {
    if v < 0 then "-" else []
  }

  predicate IsDigit(c: char)
  {
    '0' <= c <= '9'
  }

  /** The number a string of digits denotes: the reading `Digits` is checked against. */
  function DigitsValue(s: seq<char>): (n: nat)
    requires forall i :: 0 <= i < |s| ==> IsDigit(s[i])
    decreases |s|
  {
    if s == [] then 0
    else
      assert IsDigit(s[|s| - 1]);
      10 * DigitsValue(s[..|s| - 1]) + (s[|s| - 1] as int - '0' as int)
  }

  /** The number a decimal string denotes, an optional '-' first. */
  function DecimalValue(s: seq<char>): int
    requires s != [] && (forall i :: 0 <= i < |s| ==> IsDigit(s[i]) || (i == 0 && s[0] == '-'))
  {
    if s[0] == '-' then -(DigitsValue(s[1..]) as int) else DigitsValue(s)
  }

  function Reversed(s: seq<char>): (r: seq<char>)
    ensures |r| == |s|
    decreases |s|
  {
    if s == [] then [] else [s[|s| - 1]] + Reversed(s[..|s| - 1])
  }

  /**
   * The first loop of `print(i32)`: the digits of `n` into a 12-character
   * buffer, least significant first.
   */
  method DigitsBackwards(n: nat) returns (digits: array<char>, total: nat)
    requires n <= I32_MAX
    ensures fresh(digits) && digits.Length == 12
    ensures total <= 10 && Reversed(digits[..total]) == Digits(n)
  {
    digits := new char[12];
    total := 0;
    var integer: nat := n;
    I32Digits(n);
    while integer > 0
      invariant total <= 10 && integer <= I32_MAX
      invariant integer > 0 ==> total + |Digits(integer)| <= 10
      invariant Digits(integer) + Reversed(digits[..total]) == Digits(n)
      decreases integer
    {
      var before := digits[..total];
      digits[total] := DigitChar(integer % 10);
      assert digits[..total + 1] == before + [DigitChar(integer % 10)];
      PeelDigit(integer, before);
      total := total + 1;
      integer := integer / 10;
    }
  }

  /** One turn of the digit loop: the last digit moves from the number to the front of what is still to be reversed. */
  lemma PeelDigit(n: nat, done: seq<char>)
    requires n > 0
    ensures Digits(n / 10) + Reversed(done + [DigitChar(n % 10)]) == Digits(n) + Reversed(done)
  {
    var d := DigitChar(n % 10);
    ReversedSnoc(done, d);
    assert Digits(n / 10) + ([d] + Reversed(done)) == (Digits(n / 10) + [d]) + Reversed(done);
  }

  /** Reading the digit buffer from its top index down is reading its reversal from the front. */
  lemma {:induction false} ReversedIndex(s: seq<char>, j: nat)
    requires j < |s|
    ensures Reversed(s)[j] == s[|s| - 1 - j]
    decreases |s|
  {
    if j > 0 {
      ReversedIndex(s[..|s| - 1], j - 1);
    }
  }

  /** A view without NUL characters is printed whole. */
  lemma {:induction false} WholeView(s: seq<char>)
    requires '\0' !in s
    ensures Shown(Some(s)) == s
  {
  }

  lemma ReversedSnoc(s: seq<char>, c: char)
    ensures Reversed(s + [c]) == [c] + Reversed(s)
  {
    assert (s + [c])[..|s + [c]| - 1] == s;
  }

  // Properties of `write`.

  /** `write` keeps its bounds: the buffer never overflows and the row and column stay in range. */
  lemma PutWithin(t: Text, c: char, lim: Limits)
    requires Within(t, lim)
    ensures Within(Put(t, c, lim).0, lim)
  {
  }

  lemma {:induction false} PutAllWithin(t: Text, cs: seq<char>, lim: Limits)
    requires Within(t, lim)
    ensures Within(PutAll(t, cs, lim).0, lim)
    decreases |cs|
  {
    if cs != [] {
      PutAllWithin(t, cs[..|cs| - 1], lim);
      PutWithin(PutAll(t, cs[..|cs| - 1], lim).0, cs[|cs| - 1], lim);
    }
  }

  /** One more character, as the print loops take them. */
  lemma PutAllSnoc(t: Text, cs: seq<char>, c: char, lim: Limits)
    ensures var before := PutAll(t, cs, lim); var last := Put(before.0, c, lim);
      PutAll(t, cs + [c], lim) == (last.0, before.1 + last.1)
  {
    assert (cs + [c])[..|cs + [c]| - 1] == cs;
  }

  /** Writing `a` then `b` is writing `a + b`, and the counts add up. */
  lemma {:induction false} PutAllAppend(t: Text, a: seq<char>, b: seq<char>, lim: Limits)
    ensures var first := PutAll(t, a, lim); var second := PutAll(first.0, b, lim);
      PutAll(t, a + b, lim) == (second.0, first.1 + second.1)
    decreases |b|
  {
    if b == [] {
      assert a + b == a;
    } else {
      assert (a + b)[..|a + b| - 1] == a + b[..|b| - 1];
      PutAllAppend(t, a, b[..|b| - 1], lim);
    }
  }

  /** `PutAllSnoc` in the form the loops use: one more `write` after a prefix already written. */
  lemma PutAllStep(t: Text, done: seq<char>, c: char, whole: seq<char>, lim: Limits, mid: Text, n: nat, end: Text, m: nat)
    requires whole == done + [c]
    requires PutAll(t, done, lim) == (mid, n) && Put(mid, c, lim) == (end, m)
    ensures PutAll(t, whole, lim) == (end, n + m)
  {
    PutAllSnoc(t, done, c, lim);
  }

  /** `PutAllAppend` in the form the print methods use: the state after `a` is the start for `b`. */
  lemma PutAllThen(t: Text, a: seq<char>, b: seq<char>, lim: Limits, mid: Text, n: nat, end: Text, m: nat)
    requires PutAll(t, a, lim) == (mid, n) && PutAll(mid, b, lim) == (end, m)
    ensures PutAll(t, a + b, lim) == (end, n + m)
  {
    PutAllAppend(t, a, b, lim);
  }

  /**
   * Output is only ever appended. Every character `write` reports is one
   * appended character; the only other character it appends is the one
   * marker that closes an open contrast run.
   */
  lemma {:induction false} PutAllAppends(t: Text, cs: seq<char>, lim: Limits)
    ensures var r := PutAll(t, cs, lim);
      && t.out <= r.0.out
      && r.1 <= |cs|
      && |r.0.out| - |t.out| == r.1 + (if t.contrast && !r.0.contrast then 1 else 0)
      && (!t.contrast ==> !r.0.contrast)
    decreases |cs|
  {
    if cs != [] {
      var before := PutAll(t, cs[..|cs| - 1], lim);
      PutAllAppends(t, cs[..|cs| - 1], lim);
      assert before.0.out <= Put(before.0, cs[|cs| - 1], lim).0.out;
      PrefixTransitive(t.out, before.0.out, PutAll(t, cs, lim).0.out);
    }
  }

  lemma PrefixTransitive(a: seq<char>, b: seq<char>, c: seq<char>)
    requires a <= b && b <= c
    ensures a <= c
  {
    assert c[..|b|][..|a|] == c[..|a|];
  }

  /** With room in the buffer and on the row, a line without newlines is stored whole and reported whole. */
  lemma {:induction false} PutAllFits(t: Text, cs: seq<char>, lim: Limits)
    requires |t.out| + |cs| <= lim.capacity && t.row < lim.rowsTotal && t.col + |cs| <= lim.rowMaxLength
    requires '\n' !in cs
    ensures PutAll(t, cs, lim) == (t.(out := t.out + cs, col := t.col + |cs|), |cs|)
    decreases |cs|
  {
    if cs == [] {
      assert t.out + cs == t.out;
    } else {
      var init, last := cs[..|cs| - 1], cs[|cs| - 1];
      assert '\n' !in init by {
        forall i | 0 <= i < |init| ensures init[i] != '\n' {
          assert init[i] == cs[i];
        }
      }
      assert last in cs;
      PutAllFits(t, init, lim);
      var prev := t.(out := t.out + init, col := t.col + |init|);
      assert PutAll(t, cs, lim) == (Put(prev, last, lim).0, |init| + Put(prev, last, lim).1);
      assert Put(prev, last, lim) == (prev.(out := prev.out + [last], col := prev.col + 1), 1);
      assert t.out + init + [last] == t.out + cs;
    }
  }

  /** Once the buffer is full or every row is used, writing changes nothing and reports nothing. */
  lemma {:induction false} PutAllSaturated(t: Text, cs: seq<char>, lim: Limits)
    requires |t.out| >= lim.capacity || t.row >= lim.rowsTotal
    ensures PutAll(t, cs, lim) == (t, 0)
    decreases |cs|
  {
    if cs != [] {
      PutAllSaturated(t, cs[..|cs| - 1], lim);
    }
  }

  // Properties of the decimal notation.

  /** `Digits` uses only digit characters, never starts with '0', and reads back as `n`. */
  lemma {:induction false} DigitsRoundTrip(n: nat)
    ensures forall i :: 0 <= i < |Digits(n)| ==> IsDigit(Digits(n)[i])
    ensures n > 0 ==> Digits(n) != [] && Digits(n)[0] != '0'
    ensures DigitsValue(Digits(n)) == n
    decreases n
  {
    if n > 0 {
      DigitsRoundTrip(n / 10);
      var init := Digits(n / 10);
      assert Digits(n)[..|Digits(n)| - 1] == init;
      if n / 10 == 0 {
        assert Digits(n) == [DigitChar(n % 10)];
      } else {
        assert Digits(n)[0] == init[0];
      }
    }
  }

  /** A magnitude below 10^k has at most k digits; every `i32` magnitude has at most 10. */
  lemma {:induction false} DigitsLength(n: nat, k: nat, bound: nat)
    requires n < bound && bound == Power10(k)
    ensures |Digits(n)| <= k
    decreases k
  {
    if n > 0 {
      assert k > 0;
      DigitsLength(n / 10, k - 1, Power10(k - 1));
    }
  }

  function Power10(k: nat): (r: nat)
    ensures r >= 1
  {
    if k == 0 then 1 else 10 * Power10(k - 1)
  }

  lemma I32Digits(n: nat)
    requires n <= I32_MAX
    ensures |Digits(n)| <= 10
  {
    assert Power10(10) == 10_000_000_000 by {
      assert Power10(5) == 100_000;
    }
    DigitsLength(n, 10, Power10(10));
  }

  /** `print(i32)` is a faithful decimal notation: what it writes reads back as the number, and holds no newline. */
  lemma DecimalRoundTrip(v: int)
    ensures Decimal(v) != [] && '\n' !in Decimal(v)
    ensures forall i :: 0 <= i < |Decimal(v)| ==> IsDigit(Decimal(v)[i]) || (i == 0 && Decimal(v)[0] == '-')
    ensures DecimalValue(Decimal(v)) == v
  {
    if v == 0 {
      assert Decimal(v) == ['0'];
      assert DigitsValue(['0']) == 10 * DigitsValue([]) + 0;
    } else {
      var m := if v < 0 then -v else v;
      DigitsRoundTrip(m);
      var ds := Digits(m);
      forall i | 0 <= i < |ds|
        ensures ds[i] != '\n'
      {
        assert IsDigit(ds[i]);
      }
      if v < 0 {
        assert Decimal(v) == ['-'] + ds && Decimal(v)[1..] == ds;
      } else {
        assert Decimal(v) == [] + ds == ds;
      }
    }
  }
}
