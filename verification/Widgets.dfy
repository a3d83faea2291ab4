/**
 * The built-in widgets of the UI engine as one tagged variant with local
 * state, their event handlers and what they draw. Renderer calls and
 * handler invocations are recorded as a trace of `Call`s; `id` is the
 * widget's slot in the engine, named in handler calls.
 */
module Widgets {
  import opened CInt
  import opened Wrappers
  import opened StepModes
  import StepAdjuster
  import ValueAdjuster

  /** A value shown through the renderer's `value` overloads. */
  datatype Scalar = Text(text: string) | Number(number: int) | Flag(flag: bool)

  /** A renderer call made while one widget is drawn. */
  datatype Piece =
    | BeginFocused | EndFocused
    | Arrow | Colon
    | BeginBlock | EndBlock | BeginAltBlock | EndAltBlock
    | Value(shown: Scalar)
    | Checkbox(checked: bool)

  /**
   * A renderer call, a handler invocation or a page hook. `Slot(i, pieces)`
   * stands for `beginWidget(i)`, the calls `pieces`, then `endWidget`.
   */
  datatype Call =
    | Prepare | Finish
    | Title(title: string)
    | Slot(index: nat, pieces: seq<Piece>)
    | ClickHandler(widget: nat)
    | BoolHandler(widget: nat, state: bool)
    | IntHandler(widget: nat, value: int)
    | PageEntered(page: nat) | PageExited(page: nat) | PageUpdated(page: nat, now: U32)

  /** A ComboBox option: the key shown and the value handed to the handler. */
  datatype Item = Item(key: string, value: int)

  datatype Widget =
    | Button(caption: string, hasClickHandler: bool)
    | CheckBox(state: bool, hasHandler: bool)
    | ComboBox(items: seq<Item>, cursor: nat, hasHandler: bool)
    | Display(shown: Scalar)
    | Labeled(caption: string, inner: Widget)
    | SpinBox(mode: StepMode, value: int, step: int, stepSetting: bool, hasHandler: bool)
    | PageSetter(target: nat)

  /** The widget's own invariant: a ComboBox has at least one item and its cursor on one of them. */
  predicate WidgetOk(w: Widget)
  {
    match w
    case ComboBox(items, cursor, _) => 0 < |items| && cursor < |items|
    case Labeled(_, inner) => WidgetOk(inner)
    case _ => true
  }

  /**
   * A value event `v` is defined for the widget: it does not reach the
   * division of a Geometric SpinBox in value mode by a zero step.
   */
  predicate ValueDefined(w: Widget, v: int)
  {
    match w
    case SpinBox(mode, _, step, stepSetting, _) => !stepSetting ==> ValueAdjuster.Defined(mode, step, v)
    case Labeled(_, inner) => ValueDefined(inner, v)
    case _ => true
  }

  /** A Geometric SpinBox (seen through labels) has a nonzero step, so every value event is defined. */
  predicate DivisorOk(w: Widget)
  {
    match w
    case SpinBox(mode, _, step, _, _) => mode == Geometric ==> step != 0
    case Labeled(_, inner) => DivisorOk(inner)
    case _ => true
  }

  lemma DivisorDefines(w: Widget, v: int)
    requires DivisorOk(w)
    ensures ValueDefined(w, v)
  {
  }

  /** The page a widget navigates to: a PageSetter's target, seen through labels. */
  function Target(w: Widget): Option<nat>
  {
    match w
    case PageSetter(target) => Some(target)
    case Labeled(_, inner) => Target(inner)
    case _ => None
  }

  /** A widget a client can build: the PageSetter is internal to the engine. */
  predicate Public(w: Widget)
  {
    Target(w).None?
  }

  // Construction.

  function NewButton(caption: string, hasClickHandler: bool): (w: Widget)
    ensures Public(w) && WidgetOk(w)
  {
    Button(caption, hasClickHandler)
  }

  function NewCheckBox(defaultState: bool, hasHandler: bool): (w: Widget)
    ensures Public(w) && WidgetOk(w) && w.CheckBox? && w.state == defaultState
  {
    CheckBox(defaultState, hasHandler)
  }

  /** The selection starts on the first item; the source asserts `N >= 1` statically. */
  function NewComboBox(items: seq<Item>, hasHandler: bool): (w: Widget)
    requires |items| >= 1
    ensures Public(w) && WidgetOk(w) && w.ComboBox? && w.cursor == 0
  {
    ComboBox(items, 0, hasHandler)
  }

  function NewDisplay(shown: Scalar): (w: Widget)
    ensures Public(w) && WidgetOk(w)
  {
    Display(shown)
  }

  function NewLabeled(caption: string, inner: Widget): (w: Widget)
    ensures Public(w) <==> Public(inner)
    ensures WidgetOk(w) <==> WidgetOk(inner)
    ensures DivisorOk(w) <==> DivisorOk(inner)
  {
    Labeled(caption, inner)
  }

  /** A SpinBox starts in value mode; only a Geometric one with step 0 can come to divide by zero. */
  function NewSpinBox(mode: StepMode, defaultValue: int, step: int, hasHandler: bool): (w: Widget)
    ensures Public(w) && WidgetOk(w) && w.SpinBox? && !w.stepSetting
    ensures DivisorOk(w) <==> (mode == Geometric ==> step != 0)
  {
    SpinBox(mode, defaultValue, step, false, hasHandler)
  }

  // Event handling.

  /** What a handler did: the widget's new state, whether a redraw is due, the calls it made, and a page to bind. */
  datatype Outcome = Outcome(widget: Widget, redraw: bool, calls: seq<Call>, bind: Option<nat>)

  /**
   * The cursor step shared by `Page::moveCursor` and `ComboBox::moveCursor`:
   * `(cursor + delta + n) % n` in `usize`, so the sum wraps at 2^32 first.
   */
  function CursorStep(cursor: nat, delta: int, n: nat): (r: nat)
    requires n > 0
    ensures r < n
  {
    ToU32(cursor + delta + n) % n
  }

  /** `CheckBox::setState`: store the state and hand it to the handler. */
  function SetState(w: Widget, id: nat, state: bool): (o: Outcome)
    requires w.CheckBox?
    ensures o.widget == w.(state := state)
    ensures o.calls == (if w.hasHandler then [BoolHandler(id, state)] else [])
  {
    Outcome(w.(state := state), true, if w.hasHandler then [BoolHandler(id, state)] else [], None)
  }

  /** `SpinBox::setValue`: store the value and hand it to the handler. */
  function SetValue(w: Widget, id: nat, value: int): (o: Outcome)
    requires w.SpinBox?
    ensures o.widget == w.(value := value)
    ensures o.calls == (if w.hasHandler then [IntHandler(id, value)] else [])
  {
    Outcome(w.(value := value), true, if w.hasHandler then [IntHandler(id, value)] else [], None)
  }

  /** `onClick`; widgets that do not override it ignore the click. */
  function OnClick(w: Widget, id: nat): (o: Outcome)
    ensures WidgetOk(w) ==> WidgetOk(o.widget)
    ensures DivisorOk(w) ==> DivisorOk(o.widget)
    ensures Target(o.widget) == Target(w) && o.bind == Target(w)
    ensures w.PageSetter? ==> o.widget == w
    ensures Prepare !in o.calls
  {
    match w
    case Button(_, hasClickHandler) =>
      Outcome(w, false, if hasClickHandler then [ClickHandler(id)] else [], None)
    case CheckBox(state, _) =>
      SetState(w, id, !state)
    case Labeled(caption, inner) =>
      var o := OnClick(inner, id);
      o.(widget := Labeled(caption, o.widget))
    case SpinBox(_, _, _, stepSetting, _) =>
      Outcome(w.(stepSetting := !stepSetting), true, [], None)
    case PageSetter(target) =>
      Outcome(w, true, [], Some(target))
    case _ =>
      Outcome(w, false, [], None)
  }

  /** `onValue`; widgets that do not override it ignore the value. */
  function OnValue(w: Widget, id: nat, v: I8): (o: Outcome)
    requires WidgetOk(w) && ValueDefined(w, v)
    ensures WidgetOk(o.widget)
    ensures DivisorOk(w) ==> DivisorOk(o.widget)
    ensures Target(o.widget) == Target(w) && o.bind.None?
    ensures w.PageSetter? ==> o.widget == w
    ensures Prepare !in o.calls
  {
    match w
    case CheckBox(_, _) =>
      SetState(w, id, v > 0)
    case ComboBox(items, cursor, hasHandler) =>
      var c := CursorStep(cursor, v, |items|);
      Outcome(w.(cursor := c), true, if hasHandler then [IntHandler(id, items[c].value)] else [], None)
    case Labeled(caption, inner) =>
      var o := OnValue(inner, id, v);
      o.(widget := Labeled(caption, o.widget))
    case SpinBox(mode, value, step, stepSetting, _) =>
      if stepSetting then
        var newStep := StepAdjuster.Adjusted(step, v);
        Outcome(w.(step := newStep), true, [], None)
      else
        SetValue(w, id, ValueAdjuster.Adjusted(mode, value, step, v))
    case _ =>
      Outcome(w, false, [], None)
  }

  // Drawing.

  /** `doRender`: what the widget draws; `titles` are the page titles a PageSetter shows. */
  function DoRender(w: Widget, titles: seq<string>): (r: seq<Piece>)
    requires WidgetOk(w) && (Target(w).Some? ==> Target(w).value < |titles|)
    ensures BeginFocused !in r && EndFocused !in r
  {
    match w
    case Button(caption, _) => [BeginBlock, Value(Text(caption)), EndBlock]
    case CheckBox(state, _) => [Checkbox(state)]
    case ComboBox(items, cursor, _) => [BeginAltBlock, Value(Text(items[cursor].key)), EndAltBlock]
    case Display(shown) => [Value(shown)]
    case Labeled(caption, inner) => [Value(Text(caption)), Colon] + DoRender(inner, titles)
    case SpinBox(_, value, step, stepSetting, _) =>
      [BeginAltBlock] + (if stepSetting then [Arrow, Value(Number(step))] else [Value(Number(value))]) + [EndAltBlock]
    case PageSetter(target) => [Arrow, Value(Text(titles[target]))]
  }

  /** `Widget::render`: the focused widget is wrapped in `beginFocused`/`endFocused`. */
  function Render(w: Widget, focused: bool, titles: seq<string>): (r: seq<Piece>)
    requires WidgetOk(w) && (Target(w).Some? ==> Target(w).value < |titles|)
    ensures BeginFocused in r <==> focused
  {
    if focused then [BeginFocused] + DoRender(w, titles) + [EndFocused] else DoRender(w, titles)
  }

  /** A focused widget is opened exactly once by `beginFocused` and closed exactly once by `endFocused`; an unfocused one never. */
  lemma RenderFocusOnce(w: Widget, focused: bool, titles: seq<string>)
    requires WidgetOk(w) && (Target(w).Some? ==> Target(w).value < |titles|)
    ensures multiset(Render(w, focused, titles))[BeginFocused] == (if focused then 1 else 0)
    ensures multiset(Render(w, focused, titles))[EndFocused] == (if focused then 1 else 0)
  {
    var body := DoRender(w, titles);
    assert multiset(body)[BeginFocused] == 0 && multiset(body)[EndFocused] == 0;
    if focused {
      Wrapped(body);
    }
  }

  /** Wrapping a body free of focus markers adds one of each. */
  lemma Wrapped(body: seq<Piece>)
    requires BeginFocused !in body && EndFocused !in body
    ensures multiset([BeginFocused] + body + [EndFocused])[BeginFocused] == 1
    ensures multiset([BeginFocused] + body + [EndFocused])[EndFocused] == 1
  {
    assert multiset([BeginFocused] + body + [EndFocused]) == multiset([BeginFocused]) + multiset(body) + multiset([EndFocused]);
  }

  // The cursor step.

  /** While `cursor + delta + n` stays within `usize`, the step is the circular move `(cursor + delta) mod n`. */
  lemma CursorStepWraps(cursor: nat, delta: int, n: nat)
    requires n > 0 && 0 <= cursor + delta + n < U32_MODULUS
    ensures CursorStep(cursor, delta, n) == (cursor + delta) % n
    ensures delta == 0 && cursor < n ==> CursorStep(cursor, delta, n) == cursor
  {
    var x := cursor + delta;
    assert ToU32(x + n) == x + 1 * n;
    ModShift(x, 1, n);
    if delta == 0 && cursor < n {
      ModSmall(cursor, n);
    }
  }

  /** The circular move the cursor step stands for: `(cursor + delta) mod n` for every delta. */
  function IntendedCursorStep(cursor: nat, delta: int, n: nat): (r: nat)
    requires n > 0
    ensures r < n
    ensures exists k :: cursor + delta == k * n + r
  {
    var r := (cursor + delta) % n;
    assert cursor + delta == ((cursor + delta) / n) * n + r;
    r
  }

  /**
   * When `n` divides 2^32 (a power of two) the wrap-around is harmless and
   * the unsigned step is the intended one for every delta.
   */
  lemma {:induction false} PowerOfTwoAgrees(cursor: nat, delta: int, n: nat)
    requires n > 0 && U32_MODULUS % n == 0
    ensures CursorStep(cursor, delta, n) == IntendedCursorStep(cursor, delta, n)
  {
    var x := cursor + delta + n;
    var r := ToU32(x);
    var j := (r - x) / U32_MODULUS;
    assert r == x + j * U32_MODULUS;
    var m := U32_MODULUS / n;
    assert U32_MODULUS == m * n;
    assert j * U32_MODULUS == (j * m) * n;
    ModShift(x, j * m, n);
    ModShift(cursor + delta, 1, n);
  }

  /**
   * As written, a step back past the first widget on a page whose widget
   * count is not a power of two lands on the wrong widget: with three
   * widgets, the cursor on the first and a move of -16 (the smallest event
   * value) the cursor stays on widget 0 instead of reaching widget 2.
   */
  lemma CursorStepCounterexample()
    ensures CursorStep(0, -16, 3) == 0
    ensures IntendedCursorStep(0, -16, 3) == 2
  {
    assert ToU32(-13) == 0x1_0000_0000 - 13;
  }

  /** For moves no larger than the widget count the two agree. */
  lemma IntendedAgreesInRange(cursor: nat, delta: int, n: nat)
    requires n > 0 && 0 <= cursor + delta + n < U32_MODULUS
    ensures CursorStep(cursor, delta, n) == IntendedCursorStep(cursor, delta, n)
  {
    CursorStepWraps(cursor, delta, n);
  }

  // Handler behaviour.

  /** A Button click runs its handler, if any, and never asks for a redraw. */
  lemma ButtonClick(caption: string, hasClickHandler: bool, id: nat)
    ensures var o := OnClick(Button(caption, hasClickHandler), id);
      && !o.redraw && o.widget == Button(caption, hasClickHandler)
      && (ClickHandler(id) in o.calls <==> hasClickHandler)
  {
  }

  /** Clicking a CheckBox toggles it, so two clicks restore it; each click hands the new state to the handler. */
  lemma CheckBoxClickTwice(state: bool, hasHandler: bool, id: nat)
    ensures var o1 := OnClick(CheckBox(state, hasHandler), id);
      var o2 := OnClick(o1.widget, id);
      && o1.redraw && o1.widget.state == !state
      && o2.widget == CheckBox(state, hasHandler)
      && (hasHandler ==> o1.calls + o2.calls == [BoolHandler(id, !state), BoolHandler(id, state)])
  {
  }

  /** A value event sets a CheckBox to whether the value is positive, whatever it was. */
  lemma CheckBoxValue(state: bool, hasHandler: bool, id: nat, v: I8)
    ensures var o := OnValue(CheckBox(state, hasHandler), id, v);
      o.redraw && (o.widget.state <==> v > 0)
      && (hasHandler ==> o.calls == [BoolHandler(id, v > 0)])
  {
  }

  /** A label is transparent: the wrapped widget decides the redraw, the calls and the binding. */
  lemma {:induction false} LabeledForwards(caption: string, inner: Widget, id: nat, v: I8)
    requires WidgetOk(inner) && ValueDefined(inner, v)
    ensures var o := OnClick(Labeled(caption, inner), id); var i := OnClick(inner, id);
      o.redraw == i.redraw && o.calls == i.calls && o.bind == i.bind && o.widget == Labeled(caption, i.widget)
    ensures var o := OnValue(Labeled(caption, inner), id, v); var i := OnValue(inner, id, v);
      o.redraw == i.redraw && o.calls == i.calls && o.widget == Labeled(caption, i.widget)
  {
  }

  /**
   * A ComboBox value event moves the selection circularly and hands the
   * selected item's value to the handler; it always asks for a redraw.
   */
  lemma ComboBoxValue(items: seq<Item>, cursor: nat, hasHandler: bool, id: nat, v: I8)
    requires 0 < |items| <= I32_MAX / 2 && cursor < |items|
    ensures var o := OnValue(ComboBox(items, cursor, hasHandler), id, v);
      && o.redraw && o.widget.ComboBox? && o.widget.items == items
      && o.widget.cursor < |items|
      && (cursor + v + |items| >= 0 ==> o.widget.cursor == (cursor + v) % |items|)
      && (hasHandler ==> o.calls == [IntHandler(id, items[o.widget.cursor].value)])
  {
    if cursor + v + |items| >= 0 {
      CursorStepWraps(cursor, v, |items|);
    }
  }

  /**
   * A SpinBox click switches between value and step setting, and a value
   * event then changes only the step (silently) or only the value (telling
   * the handler); either way a redraw is due.
   */
  lemma SpinBoxEvents(mode: StepMode, value: int, step: int, stepSetting: bool, hasHandler: bool, id: nat, v: I8)
    requires !stepSetting ==> ValueAdjuster.Defined(mode, step, v)
    ensures var w := SpinBox(mode, value, step, stepSetting, hasHandler);
      var c := OnClick(w, id);
      c.redraw && c.calls == [] && c.widget == w.(stepSetting := !stepSetting)
    ensures var w := SpinBox(mode, value, step, stepSetting, hasHandler);
      var o := OnValue(w, id, v);
      && o.redraw
      && (stepSetting ==> o.widget == w.(step := StepAdjuster.Adjusted(step, v)) && o.calls == [])
      && (!stepSetting ==> o.widget == w.(value := ValueAdjuster.Adjusted(mode, value, step, v)))
      && (!stepSetting && hasHandler ==> o.calls == [IntHandler(id, o.widget.value)])
  {
  }

  /** The step-setting SpinBox keeps its step positive, so a Geometric one never comes to divide by zero. */
  lemma SpinBoxKeepsDivisor(mode: StepMode, value: int, step: int, hasHandler: bool, id: nat, v: I8)
    requires step >= StepAdjuster.MinStep
    ensures OnValue(SpinBox(mode, value, step, true, hasHandler), id, v).widget.step >= StepAdjuster.MinStep
  {
  }
}
