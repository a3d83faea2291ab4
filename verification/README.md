# KiraFlux core, modelled in Dafny

This project models the core of the KiraFlux embedded C++ library and
proves properties of that model. The core is:

- **The menu UI engine** (`kf::UI`). Pages hold ordered widget lists and a
  focus cursor. Events are packed one per byte (`kf::ui::Event`) and wait
  in a FIFO queue. `poll` dispatches at most twenty of them to the active
  page and redraws it at most once. `bindPage` runs the exit and entry
  hooks.
- **The built-in widgets.** Button, CheckBox, ComboBox, Display, Labeled,
  SpinBox and the internal PageSetter. A SpinBox changes its value with the
  `StepAdjuster` and `ValueAdjuster` rules, for `int`.
- **The two text renderers.** `TextRender` writes into a caller's buffer.
  `TextBufferRender<N>` owns an `ArrayString<N>`. Both store characters in a
  bounded buffer while tracking the row, the column and contrast mode, and
  both drop output silently once a limit is reached.
- **The containers.** `Array`, `ArrayList`, `Deque` (a growable ring
  buffer) and `Queue` (a FIFO over `Deque`).
- **Small value types and drivers.** `vec2` and `vec3` over integers,
  `TimeoutManager`, the arithmetic of `PwmPositionServo`, and the
  debouncing `Button` driver.

## How the model is built

- **The engine.** It is the class `UI.Engine`, one object rather than a
  singleton. Its state is described by pure functions over a `UIState`
  value, and every method is proved to produce what its function says.
  - Widgets live in one arena (`widgets`), and a page lists arena slots. A
    widget added to two pages is therefore one shared object, as a
    `Widget *` is in C++.
  - Renderer calls, handler invocations (`change_handler`, `on_click`) and
    page hooks (`onEntry`, `onExit`, `onUpdate`) are recorded as a trace of
    `Call`s.
- **The renderers.** Both are classes proved against one specification of
  `write`: `TextOutput.Put`, applied character by character by
  `TextOutput.PutAll`. `print`, the drawing primitives and the print loops
  each state the new renderer state as `PutAll` of the characters the
  source hands to `write`.
- **Integer widths.** A `usize` is 32 bits, as on the ESP32 target. Unsigned
  wrap-around is written out with `ToU32`, and C++ truncating division with
  `CInt.Div`.

## Model

| member | source | states |
|---|---|---|
| Events.ValueOf | src/kf/ui/Event.hpp:63-66 | the sign-extended five-bit value always lies in [-16, 15] |
| Events.Make | src/kf/ui/Event.hpp:48-53 | the constructor packs the type bits and the masked value bits into one byte; `TypeRoundTrip`, `ValueRoundTrip`, `OutOfRangeWraps` and `FieldsIndependent` state what it keeps |
| Events.TypeOf | src/kf/ui/Event.hpp:57-59 | `type()` reads the type bits back; by `TypeRoundTrip` it is the constructor's type for any value |
| Events.NoneEvent | src/kf/ui/Event.hpp:72 | `none()` is an event of type None; stated in `Factories` |
| Events.UpdateEvent | src/kf/ui/Event.hpp:76 | `update()` is an event of type Update; stated in `Factories` |
| Events.PageCursorMoveEvent | src/kf/ui/Event.hpp:81 | `pageCursorMove(offset)` carries its offset; stated in `Factories` |
| Events.WidgetClickEvent | src/kf/ui/Event.hpp:85 | `widgetClick()` is an event of type WidgetClick; stated in `Factories` |
| Events.WidgetValueEvent | src/kf/ui/Event.hpp:89 | `widgetValue(value)` carries its value; stated in `Factories` |
| Events.FieldsIndependent | src/kf/ui/Event.hpp:48-53 | the type field of the stored byte depends only on the type, and the value field only on the value's low five bits |
| Events.TypeRoundTrip | src/kf/ui/Event.hpp:57-59 | `type()` returns the type an event was built with, whatever its value |
| Events.ValueWraps | src/kf/ui/Event.hpp:63-66 | `value()` returns the five-bit two's-complement wrap of the value an event was built with |
| Events.ValueRoundTrip | src/kf/ui/Event.hpp:48-66 | every value in [-16, 15] and every type survive encoding and decoding exactly |
| Events.OutOfRangeWraps | src/kf/ui/Event.hpp:63-66 | values outside the field wrap rather than clamp: 16 reads back as -16, -17 as 15, 127 as -1 |
| Events.Factories | src/kf/ui/Event.hpp:72-89 | each factory carries its own type; `none`, `update` and `widgetClick` carry 0, and `pageCursorMove(o)` and `widgetValue(o)` carry `o` |
| StepAdjuster.Adjust | src/kf/ui/detail/StepAdjuster.hpp:34-42 | the in-place update yields the adjusted step: ten times the step for a positive direction, and at least `min_step` otherwise |
| StepAdjuster.Adjusted | src/kf/ui/detail/StepAdjuster.hpp:34-42 | the step rule that `Adjust` is proved against; `IncreaseScales`, `DecreaseFloor` and `IncreaseThenDecrease` state its properties |
| StepAdjuster.IncreaseScales | src/kf/ui/detail/StepAdjuster.hpp:35-36 | a positive direction multiplies by ten with no upper clamp, so a positive step grows |
| StepAdjuster.DecreaseFloor | src/kf/ui/detail/StepAdjuster.hpp:37-40 | direction 0 or less divides by ten, and a result below `min_step` becomes `min_step` |
| StepAdjuster.SmallStepDecreasesToOne | src/kf/ui/detail/StepAdjuster.hpp:37-40 | any step from 1 to 9 decreases to exactly 1, for direction 0 as well as a negative one |
| StepAdjuster.AdjustmentsKeepMinStep | src/kf/ui/detail/StepAdjuster.hpp:13-40 | from a step of at least `min_step`, any sequence of increases and decreases keeps it at least `min_step` |
| StepAdjuster.IncreaseThenDecrease | src/kf/ui/detail/StepAdjuster.hpp:34-42 | an increase followed by a decrease restores every step of at least `min_step` |
| StepAdjuster.Traits | src/kf/ui/detail/StepAdjuster.hpp:12-15 | for `int`, `min_step` and `default_step` are 1 and the multiplier is 10 |
| ValueAdjuster.Adjust | src/kf/ui/detail/ValueAdjuster.hpp:18-41 | the in-place update yields the mode's adjusted value, and ArithmeticPositiveOnly never yields a negative value |
| ValueAdjuster.Adjusted | src/kf/ui/detail/ValueAdjuster.hpp:18-41 | the value rule of each step mode that `Adjust` is proved against; `ArithmeticMoves`, `PositiveOnlyClamps` and `GeometricScales` state its properties |
| ValueAdjuster.ArithmeticMoves | src/kf/ui/detail/ValueAdjuster.hpp:18-22 | Arithmetic moves the value by exactly direction times step; direction 0 keeps it |
| ValueAdjuster.ArithmeticUndo | src/kf/ui/detail/ValueAdjuster.hpp:18-22 | Arithmetic with `+d` and then `-d` restores the value |
| ValueAdjuster.PositiveOnlyClamps | src/kf/ui/detail/ValueAdjuster.hpp:25-30 | ArithmeticPositiveOnly never goes below 0, agrees with Arithmetic whenever that result is not negative, and is 0 otherwise |
| ValueAdjuster.GeometricScales | src/kf/ui/detail/ValueAdjuster.hpp:33-41 | Geometric multiplies by the step for a positive direction, and otherwise divides with truncation, which never increases the magnitude |
| Widgets.NewButton | src/kf/UI.hpp:285-286 | a new Button is a public widget that keeps the widget invariant |
| Widgets.NewCheckBox | src/kf/UI.hpp:311-315 | a new CheckBox starts in its default state |
| Widgets.NewComboBox | src/kf/UI.hpp:346-361 | a new ComboBox, which has at least one item, selects the first item |
| Widgets.NewDisplay | src/kf/UI.hpp:392-396 | a new Display is a public widget that keeps the widget invariant |
| Widgets.NewLabeled | src/kf/UI.hpp:417-418 | a label is public, keeps the invariant, and has a nonzero Geometric step, exactly when the widget it wraps does |
| Widgets.NewSpinBox | src/kf/UI.hpp:451-462 | a new SpinBox, of any step, starts in value mode (not step setting); it can never divide by zero unless it is Geometric with step 0 |
| Widgets.CursorStep | src/kf/UI.hpp:199 | the cursor step computed in `usize` always lands on one of the `n` items |
| Widgets.SetState | src/kf/UI.hpp:317-320 | `setState` stores the state and hands it to the handler if one is set |
| Widgets.SetValue | src/kf/UI.hpp:464-467 | `setValue` stores the value and hands it to the handler if one is set |
| Widgets.OnClick | src/kf/UI.hpp:67-476 | a click keeps the widget invariant and a nonzero Geometric step, never changes where a widget leads, never draws, and binds the target page exactly for a PageSetter (seen through labels) |
| Widgets.OnValue | src/kf/UI.hpp:71-488 | a value event that does not divide by zero keeps the widget invariant and a nonzero Geometric step, never changes where a widget leads, never draws and never binds a page |
| Widgets.DoRender | src/kf/UI.hpp:298-500 | a widget's own drawing never opens or closes the focus frame |
| Widgets.Render | src/kf/UI.hpp:74-82 | a widget is wrapped in `beginFocused` exactly when it is focused |
| Widgets.RenderFocusOnce | src/kf/UI.hpp:74-82 | a focused widget is opened once by `beginFocused` and closed once by `endFocused`; an unfocused one has neither |
| Widgets.CursorStepWraps | src/kf/UI.hpp:196-204 | while `cursor + delta + n` fits in `usize` the step is `(cursor + delta) mod n`, and a zero move keeps the cursor |
| Widgets.IntendedCursorStep | src/kf/UI.hpp:193-199 | the circular move the documentation describes: a remainder modulo `n` that differs from `cursor + delta` by a multiple of `n` |
| Widgets.PowerOfTwoAgrees | src/kf/UI.hpp:199 | when `n` divides 2^32 the unsigned step equals the intended one for every delta |
| Widgets.CursorStepCounterexample | src/kf/UI.hpp:199 | with 3 widgets, the cursor on 0 and a move of -16, the code lands on 0 where the intended step gives 2 |
| Widgets.IntendedAgreesInRange | src/kf/UI.hpp:199 | the two steps agree whenever the unsigned sum does not wrap |
| Widgets.ButtonClick | src/kf/UI.hpp:289-295 | a Button click calls its handler exactly when it has one, keeps the Button and asks for no redraw |
| Widgets.CheckBoxClickTwice | src/kf/UI.hpp:326-329 | a click toggles a CheckBox and asks for a redraw; two clicks restore it, reporting each new state to the handler |
| Widgets.CheckBoxValue | src/kf/UI.hpp:331-334 | a value event sets a CheckBox to whether the value is positive, reports it, and asks for a redraw |
| Widgets.LabeledForwards | src/kf/UI.hpp:420-426 | a Labeled widget forwards clicks and values: the redraw flag, the handler calls and the binding are the wrapped widget's |
| Widgets.ComboBoxValue | src/kf/UI.hpp:365-382 | a value event moves the selection circularly, reports the selected item's value, and always asks for a redraw |
| Widgets.SpinBoxEvents | src/kf/UI.hpp:473-488 | a click toggles step setting; a value event then changes only the step (no handler call) or only the value (handler called); both ask for a redraw |
| Widgets.SpinBoxKeepsDivisor | src/kf/UI.hpp:480-483 | step adjustment keeps a step of at least `min_step`, so a Geometric SpinBox never divides by zero |
| UI.Titles | src/kf/UI.hpp:189-190 | one title per page, in page order |
| UI.PageAdded | src/kf/UI.hpp:112-122 | a new page has no widgets and the given title, and its `to_this` PageSetter is a new widget leading to it; existing pages and widgets are unchanged and the engine invariant holds |
| UI.WidgetCreated | src/kf/UI.hpp:59-60 | a widget built without a page takes a new slot, and no page changes |
| UI.WidgetAdded | src/kf/UI.hpp:135-137 | `addWidget` appends to that page's list only; the cursor and everything else are kept, and so is the cursor invariant |
| UI.Linked | src/kf/UI.hpp:141-144 | linking two pages keeps the engine invariant |
| UI.Bound | src/kf/UI.hpp:219-226 | binding makes the page active and changes no page or widget |
| UI.CursorMoved | src/kf/UI.hpp:196-204 | moving the cursor keeps the engine invariant, the active page, the widgets and the trace |
| UI.WidgetReplaced | src/kf/UI.hpp:172-181 | putting a handler's new widget state back in its slot keeps the engine invariant |
| UI.Applied | src/kf/UI.hpp:172-181 | a handler's outcome keeps the invariant and a bound page, and the redraw flag is the handler's |
| UI.Clicked | src/kf/UI.hpp:172-176 | a click on a page with widgets keeps the invariant and a bound page |
| UI.ValueChanged | src/kf/UI.hpp:177-181 | a value change keeps the invariant and a bound page |
| UI.EventHandled | src/kf/UI.hpp:164-184 | handling any event, of any type, keeps the invariant and a bound page |
| UI.Dispatched | src/kf/UI.hpp:247-251 | handling a batch of events in order keeps the invariant and a bound page |
| UI.Window | src/kf/UI.hpp:151-153 | the visible window holds at most `available` widgets and ends at or before the last; it holds the cursor when there is room for one widget; it is everything when everything fits |
| UI.Slots | src/kf/UI.hpp:155-159 | one slot per window index, in order, and a slot is focused exactly when its index is the cursor |
| UI.DrawSlots | src/kf/UI.hpp:155-159 | the drawing loop produces exactly the slots of the window |
| UI.PageRender | src/kf/UI.hpp:148-160 | `Page::render` draws the title first, and then only widget slots, of which exactly the cursor's is focused |
| UI.Rendered | src/kf/UI.hpp:253-257 | a redraw keeps the engine invariant |
| UI.Taken | src/kf/UI.hpp:242-247 | one poll takes `min(size, 20)` events |
| UI.Polled | src/kf/UI.hpp:235-258 | `poll` keeps the engine invariant |
| UI.Updated | src/kf/UI.hpp:238 | the update hook keeps the invariant and the active page |
| UI.Engine.constructor | src/kf/UI.hpp:207-210 | an engine starts with no pages, no widgets, no active page and an empty queue |
| UI.Engine.AddPage | src/kf/UI.hpp:112-122 | building a page updates the engine as `PageAdded` says |
| UI.Engine.CreateWidget | src/kf/UI.hpp:59-60 | building a widget without a page updates the engine as `WidgetCreated` says |
| UI.Engine.AddWidget | src/kf/UI.hpp:135-137 | `addWidget` updates the engine as `WidgetAdded` says |
| UI.Engine.Link | src/kf/UI.hpp:141-144 | `link` updates the engine as `Linked` says |
| UI.Engine.BindPage | src/kf/UI.hpp:219-226 | `bindPage` updates the engine as `Bound` says |
| UI.Engine.AddEvent | src/kf/UI.hpp:229-231 | `addEvent` appends the event to the queue and changes nothing else |
| UI.Engine.MoveCursor | src/kf/UI.hpp:196-204 | `moveCursor` updates the engine and reports a redraw as `CursorMoved` says |
| UI.Engine.Apply | src/kf/UI.hpp:172-181 | handing a handler's outcome to the engine updates it as `Applied` says |
| UI.Engine.ChangeValue | src/kf/UI.hpp:177-181 | the value-change case updates the engine as `ValueChanged` says |
| UI.Engine.HandleEvent | src/kf/UI.hpp:164-184 | `onEvent` on the active page updates the engine and reports a redraw as `EventHandled` says |
| UI.Engine.RenderPage | src/kf/UI.hpp:148-160 | `Page::render` produces the calls `PageRender` says |
| UI.Engine.RenderActive | src/kf/UI.hpp:253-257 | the redraw appends `prepare`, the active page's drawing and `finish`, as `Rendered` says |
| UI.Engine.PopEvent | src/kf/UI.hpp:250 | `events.pop()` drops the front event and changes nothing else |
| UI.Engine.DispatchQueued | src/kf/UI.hpp:242-251 | the loop takes `min(size, 20)` events from the front, leaves the rest queued, and handles them as `Dispatched` says |
| UI.Engine.Poll | src/kf/UI.hpp:235-258 | `poll` updates the engine and the queue as `Polled` says |
| UI.MoveCursorBehaviour | src/kf/UI.hpp:196-204 | with two widgets or more the cursor stays on a widget and a redraw is reported even for a zero move; while the unsigned sum does not wrap the cursor moves to `(cursor + delta) mod n`; with fewer widgets nothing changes and no redraw is reported |
| UI.EventCases | src/kf/UI.hpp:164-184 | Update asks for a redraw and changes nothing; click and value change on a page without widgets, and None or an unknown type, change nothing and report no redraw |
| UI.FocusedSlot | src/kf/UI.hpp:174 | on a page with widgets the cursor indexes one of them, and it names an existing widget |
| UI.ClickReachesFocused | src/kf/UI.hpp:172-176 | a click is handled by the focused widget and reports what its `onClick` reports |
| UI.PageSetterClick | src/kf/UI.hpp:98-101 | clicking a PageSetter leaves the old page, enters its target and asks for a redraw |
| UI.LinkBothWays | src/kf/UI.hpp:141-144 | each of two linked pages gains, as its last widget, the other's PageSetter, which leads to the other page; cursors and widgets are kept |
| UI.BindHooks | src/kf/UI.hpp:219-226 | the first binding only enters; later bindings exit the old page first, even when rebinding the same page |
| UI.RenderUnprepared | src/kf/UI.hpp:148-160 | `Page::render` itself never calls `prepare` |
| UI.RenderShowsCursor | src/kf/UI.hpp:151-159 | whenever the page has widgets and there is room for one, the cursor's widget is drawn |
| UI.AppliedExtends | src/kf/UI.hpp:172-181 | a handler's outcome only appends to the trace, never calls `prepare`, and keeps every page's widgets and titles |
| UI.HandledExtends | src/kf/UI.hpp:164-184 | handling an event never draws: the trace only grows without `prepare`, and pages keep their widgets |
| UI.DispatchedExtends | src/kf/UI.hpp:247-251 | a batch of events never draws either |
| UI.DispatchAppend | src/kf/UI.hpp:247-251 | handling `a` and then `b` is handling `a + b`, and the redraw flags combine with OR |
| UI.PollWithoutPage | src/kf/UI.hpp:236 | `poll` without an active page changes nothing, the queue included |
| UI.PollTakesAtMostTwenty | src/kf/UI.hpp:242-251 | `poll` consumes exactly the first `min(size, 20)` events and leaves the rest in order |
| UI.RedrawPreparesOnce | src/kf/UI.hpp:253-257 | a redraw appends one `prepare` and ends with `finish` |
| UI.PollUpdatesFirst | src/kf/UI.hpp:236-238 | on a bound page `poll` runs the update hook before anything else, and then only appends |
| UI.PollRendersOnce | src/kf/UI.hpp:245-257 | `poll` draws exactly once, ending with `finish`, when a handled event asked for a redraw, and not at all otherwise |
| TextRender.TextRender.constructor | src/kf/ui/TextRender.hpp:29-48 | a renderer starts with nothing written, at the top left, outside contrast mode |
| TextRender.TextRender.WidgetsAvailable | src/kf/ui/TextRender.hpp:50-52 | the rows still free: `rows_total - cursor_row`, never more than `rows_total` |
| TextRender.TextRender.Prepare | src/kf/ui/TextRender.hpp:54-56 | writing starts again at the front of the buffer; row, column and contrast are kept |
| TextRender.TextRender.Finish | src/kf/ui/TextRender.hpp:58-70 | with no buffer nothing happens; otherwise the position returns to the top left, the last written character becomes NUL, and the callback (if set) receives what was written |
| TextRender.TextRender.Write | src/kf/ui/TextRender.hpp:240-265 | `write` stores, drops or cuts off contrast exactly as `Put` specifies, and returns its count |
| TextRender.TextRender.PrintString | src/kf/ui/TextRender.hpp:146-161 | `print` writes the characters up to the first NUL ("nullptr" for a null view) and returns how many were stored |
| TextRender.TextRender.PrintInt | src/kf/ui/TextRender.hpp:166-194 | `print(i32)` writes the decimal notation of the number and returns how many characters were stored |
| TextRender.TextRender.PrintNonzero | src/kf/ui/TextRender.hpp:171-193 | past the zero test: the sign and then the digits, which together are the decimal notation |
| TextRender.TextRender.WriteSign | src/kf/ui/TextRender.hpp:173-176 | a '-' is written exactly for a negative number |
| TextRender.TextRender.WriteMagnitude | src/kf/ui/TextRender.hpp:178-191 | the two digit loops write the magnitude's digits, most significant first |
| TextRender.TextRender.WriteBackwards | src/kf/ui/TextRender.hpp:189-191 | the second loop writes the digit buffer in reverse |
| TextRender.TextRender.Title | src/kf/ui/TextRender.hpp:72-75 | the title, then a line break |
| TextRender.TextRender.Checkbox | src/kf/ui/TextRender.hpp:77-79 | `==[ 1 ]` when enabled, `[ 0 ]--` otherwise |
| TextRender.TextRender.ValueText | src/kf/ui/TextRender.hpp:81-83 | a string value is printed as `print` does |
| TextRender.TextRender.ValueBool | src/kf/ui/TextRender.hpp:85-87 | `true` or `false` |
| TextRender.TextRender.ValueInt | src/kf/ui/TextRender.hpp:89-91 | an integer value is printed in decimal |
| TextRender.TextRender.Arrow | src/kf/ui/TextRender.hpp:101-105 | `-> `, one `write` per character |
| TextRender.TextRender.Colon | src/kf/ui/TextRender.hpp:107-110 | `: `, one `write` per character |
| TextRender.TextRender.BeginContrast | src/kf/ui/TextRender.hpp:112-115 | the opening marker goes through `write`, and contrast mode is set even if the marker was dropped |
| TextRender.TextRender.EndContrast | src/kf/ui/TextRender.hpp:117-120 | the closing marker goes through `write`, and contrast mode is cleared either way |
| TextRender.TextRender.Delimiter | src/kf/ui/TextRender.hpp:122-142 | the block, alt-block and end-of-widget delimiters are one `write` each |
| TextBufferRender.TextBufferRender.constructor | src/kf/ui/TextBufferRender.hpp:24-48 | a renderer starts with an empty buffer, at the top left, outside contrast mode |
| TextBufferRender.TextBufferRender.WidgetsAvailable | src/kf/ui/TextBufferRender.hpp:50-52 | the rows still free: `rows_total - cursor_row`, never more than `rows_total` |
| TextBufferRender.TextBufferRender.Prepare | src/kf/ui/TextBufferRender.hpp:54-56 | the buffer is cleared; row, column and contrast are kept |
| TextBufferRender.TextBufferRender.Finish | src/kf/ui/TextBufferRender.hpp:58-70 | the position returns to the top left, the last character becomes NUL, and the callback (if set) receives the buffer |
| TextBufferRender.TextBufferRender.Write | src/kf/ui/TextBufferRender.hpp:210-233 | `write` stores, drops or cuts off contrast exactly as `Put` specifies |
| TextBufferRender.TextBufferRender.PrintString | src/kf/ui/TextBufferRender.hpp:125-136 | `print` writes the characters up to the first NUL ("nullptr" for a null view) |
| TextBufferRender.TextBufferRender.PrintInt | src/kf/ui/TextBufferRender.hpp:141-166 | `print(i32)` writes the decimal notation of the number |
| TextBufferRender.TextBufferRender.PrintNonzero | src/kf/ui/TextBufferRender.hpp:147-165 | past the zero test: the sign and then the digits, which together are the decimal notation |
| TextBufferRender.TextBufferRender.WriteBackwards | src/kf/ui/TextBufferRender.hpp:163-165 | the second loop writes the digit buffer in reverse |
| TextBufferRender.TextBufferRender.Title | src/kf/ui/TextBufferRender.hpp:73-76 | the title, then a line break |
| TextBufferRender.TextBufferRender.Checkbox | src/kf/ui/TextBufferRender.hpp:78 | `==[ 1 ]` when enabled, `[ 0 ]--` otherwise |
| TextBufferRender.TextBufferRender.ValueText | src/kf/ui/TextBufferRender.hpp:80 | a string value is printed as `print` does |
| TextBufferRender.TextBufferRender.ValueBool | src/kf/ui/TextBufferRender.hpp:82 | `true` or `false` |
| TextBufferRender.TextBufferRender.ValueInt | src/kf/ui/TextBufferRender.hpp:84 | an integer value is printed in decimal |
| TextBufferRender.TextBufferRender.Arrow | src/kf/ui/TextBufferRender.hpp:90-94 | `-> `, one `write` per character |
| TextBufferRender.TextBufferRender.Colon | src/kf/ui/TextBufferRender.hpp:96-99 | `: `, one `write` per character |
| TextBufferRender.TextBufferRender.BeginContrast | src/kf/ui/TextBufferRender.hpp:101-104 | the opening marker goes through `write`, and contrast mode is set even if the marker was dropped |
| TextBufferRender.TextBufferRender.EndContrast | src/kf/ui/TextBufferRender.hpp:106-109 | the closing marker goes through `write`, and contrast mode is cleared either way |
| TextBufferRender.TextBufferRender.Delimiter | src/kf/ui/TextBufferRender.hpp:111-121 | the block, alt-block and end-of-widget delimiters are one `write` each |
| TextOutput.Shown | src/kf/ui/TextRender.hpp:146-158 | the characters `print` visits hold no NUL; they are "nullptr" for a null view, and otherwise a prefix of the view that ends at its first NUL or at its end |
| TextOutput.Put | src/kf/ui/TextRender.hpp:240-265 | one `write`, the specification both renderers are proved against; `PutWithin` shows it keeps the buffer, row and column bounds |
| TextOutput.PutAll | src/kf/ui/TextRender.hpp:146-161 | a run of `write`s, as `print` makes them; `PutAllAppend`, `PutAllAppends`, `PutAllFits` and `PutAllSaturated` state its properties |
| TextOutput.UpToNul | src/kf/ui/TextRender.hpp:155-158 | the prefix before the first NUL holds no NUL and is followed by one, unless it is the whole sequence |
| TextOutput.DigitsBackwards | src/kf/ui/TextRender.hpp:178-187 | the first digit loop fills at most 10 slots of the 12-character buffer with the digits in reverse |
| TextOutput.PutWithin | src/kf/ui/TextRender.hpp:240-265 | `write` never overflows the buffer, never moves past the last row, and keeps the column within the row length |
| TextOutput.PutAllWithin | src/kf/ui/TextRender.hpp:240-265 | any sequence of writes keeps those bounds |
| TextOutput.PutAllAppend | src/kf/ui/TextRender.hpp:146-194 | writing `a` and then `b` is writing `a + b`, and the counts add up |
| TextOutput.PutAllAppends | src/kf/ui/TextRender.hpp:240-265 | writes only append to the buffer; every counted character is one appended character, and the only other one is the marker that closes a contrast run cut off at the row's end; the count never exceeds the characters offered |
| TextOutput.PutAllFits | src/kf/ui/TextRender.hpp:240-265 | with room in the buffer and on the row, a line without newlines is stored whole and counted whole |
| TextOutput.PutAllSaturated | src/kf/ui/TextRender.hpp:240-247 | once the buffer is full or every row is used, writing changes nothing and returns 0 |
| TextOutput.DigitsRoundTrip | src/kf/ui/TextRender.hpp:178-191 | the digits written are decimal digits, with no leading zero, and read back as the number |
| TextOutput.I32Digits | src/kf/ui/TextRender.hpp:178 | every `i32` magnitude has at most 10 digits, so the 12-character buffer never overflows |
| TextOutput.DecimalRoundTrip | src/kf/ui/TextRender.hpp:166-194 | what `print(i32)` writes is non-empty, has no newline, is digits with an optional leading '-', and reads back as the number |
| Array.Size | src/kf/memory/Array.hpp:125-135 | `size()` is always `N`, which is positive, so `empty()` is false |
| Array.Front | src/kf/memory/Array.hpp:60-66 | `front()` is element 0, which exists because `N > 0` |
| Array.Back | src/kf/memory/Array.hpp:68-74 | `back()` is element `N - 1` |
| Array.Equal | src/kf/memory/Array.hpp:150-156 | `==` compares element by element and stops at the first difference; `EqualIffPairwise` shows it holds exactly for equal arrays |
| Array.NotEqual | src/kf/memory/Array.hpp:158-160 | `!=` negates `==`, so by `EqualIffPairwise` it holds exactly when some pair differs |
| Array.Less | src/kf/memory/Array.hpp:162-168 | `<` is the lexicographic order; `LessDecidedAtFirstDifference`, `LessAllTies`, `LessIrreflexive`, `LessAsymmetric` and `LessTrichotomy` state its properties |
| Array.LessEqual | src/kf/memory/Array.hpp:170-172 | `<=` is `!(other < this)`; by `LessAsymmetric` it follows from `<`, and by `EqualNotLess` from `==` |
| Array.Greater | src/kf/memory/Array.hpp:174-176 | `>` is `other < this`; by `LessAsymmetric` it excludes `<` |
| Array.GreaterEqual | src/kf/memory/Array.hpp:178-180 | `>=` is `!(this < other)`; by `EqualNotLess` equal arrays satisfy it |
| Array.Fill | src/kf/memory/Array.hpp:137-141 | after `fill(v)` every element is `v` |
| Array.EqualIffPairwise | src/kf/memory/Array.hpp:150-156 | `==` holds exactly when all elements are pairwise equal |
| Array.LessDecidedAtFirstDifference | src/kf/memory/Array.hpp:162-168 | `<` is decided by the first pair of elements that do not tie |
| Array.LessAllTies | src/kf/memory/Array.hpp:162-168 | arrays whose elements tie everywhere are not less than each other in either direction |
| Array.LessIrreflexive | src/kf/memory/Array.hpp:162-168 | with an irreflexive element order, no array is less than itself |
| Array.LessAsymmetric | src/kf/memory/Array.hpp:162-180 | with an asymmetric element order, `<` is asymmetric, so an array `<` another is `<=` it and neither `>` nor `>=` it |
| Array.LessTrichotomy | src/kf/memory/Array.hpp:162-168 | any two arrays are `<` one way or the other unless their elements tie at every index |
| Array.EqualNotLess | src/kf/memory/Array.hpp:150-180 | with an irreflexive element order, equal arrays are neither less nor greater, and are both `<=` and `>=` |
| ArrayList.ArrayList.constructor | src/kf/memory/ArrayList.hpp:39 | a new list is empty and has no storage |
| ArrayList.ArrayList.At | src/kf/memory/ArrayList.hpp:49-50 | `operator[]` returns the element at that position |
| ArrayList.ArrayList.Size | src/kf/memory/ArrayList.hpp:53 | the number of elements |
| ArrayList.ArrayList.IsEmpty | src/kf/memory/ArrayList.hpp:54 | true exactly when there are no elements |
| ArrayList.ArrayList.Reserve | src/kf/memory/ArrayList.hpp:81-97 | the elements are kept in order; the capacity grows to the request and never shrinks |
| ArrayList.ArrayList.PushBack | src/kf/memory/ArrayList.hpp:57-63 | the element is appended; a full list grows from 0 to 4 slots or doubles |
| ArrayList.ArrayList.PopBack | src/kf/memory/ArrayList.hpp:65-70 | the last element is removed, and an empty list is left alone; the capacity is kept |
| ArrayList.ArrayList.Clear | src/kf/memory/ArrayList.hpp:73-78 | no elements remain and the capacity is kept |
| Growth.GrownCapacity | src/kf/memory/ArrayList.hpp:57-59 | a full container (an ArrayList here, a Deque at src/kf/memory/Deque.hpp:76-110) grows to 4 slots from 0, and otherwise doubles |
| Deque.Deque.constructor | src/kf/memory/Deque.hpp:43 | a new deque is empty and has no storage |
| Deque.Deque.At | src/kf/memory/Deque.hpp:56-62 | `operator[]` returns the logical element at that position, wherever the ring puts it |
| Deque.Deque.Front | src/kf/memory/Deque.hpp:64-65 | the first element |
| Deque.Deque.Back | src/kf/memory/Deque.hpp:67-68 | the last element |
| Deque.Deque.IsEmpty | src/kf/memory/Deque.hpp:70 | true exactly when there are no elements |
| Deque.Deque.Size | src/kf/memory/Deque.hpp:72 | the number of elements |
| Deque.Deque.Unrolled | src/kf/memory/Deque.hpp:142-148 | the copy loop places the elements, in logical order, at the start of the new buffer |
| Deque.Deque.Reserve | src/kf/memory/Deque.hpp:137-157 | the elements are kept in order; a larger request moves them to a new buffer starting at slot 0, and a smaller one changes nothing |
| Deque.Deque.PushBack | src/kf/memory/Deque.hpp:76-92 | the element is appended at the back; a full deque grows first |
| Deque.Deque.PlaceBack | src/kf/memory/Deque.hpp:80-82 | with a free slot, the store after the last element appends it |
| Deque.Deque.PushFront | src/kf/memory/Deque.hpp:94-110 | the element is prepended at the front; a full deque grows first |
| Deque.Deque.PlaceFront | src/kf/memory/Deque.hpp:98-101 | with a free slot, stepping the front back one slot circularly prepends the element |
| Deque.Deque.PopBack | src/kf/memory/Deque.hpp:112-118 | the last element is removed, and an empty deque is left alone |
| Deque.Deque.PopFront | src/kf/memory/Deque.hpp:120-126 | the first element is removed, and an empty deque is left alone |
| Deque.Deque.Clear | src/kf/memory/Deque.hpp:128-135 | no elements remain, the ring restarts at slot 0, and the capacity is kept |
| Queue.Queue.constructor | src/kf/memory/Queue.hpp:35 | a new queue is empty |
| Queue.Queue.Front | src/kf/memory/Queue.hpp:37-38 | the oldest element |
| Queue.Queue.Back | src/kf/memory/Queue.hpp:40-41 | the newest element |
| Queue.Queue.IsEmpty | src/kf/memory/Queue.hpp:43 | true exactly when nothing is queued |
| Queue.Queue.Size | src/kf/memory/Queue.hpp:44 | the number queued |
| Queue.Queue.Push | src/kf/memory/Queue.hpp:47-49 | the element joins the back |
| Queue.Queue.Pop | src/kf/memory/Queue.hpp:51 | the oldest element leaves, and an empty queue is left alone |
| Queue.FifoOrder | src/kf/memory/Queue.hpp:47-51 | elements come out in the order they went in, and the queue is then empty |
| Vec2.Vec2.DivChecked | src/kf/math/vec2.hpp:46-52 | no vector exactly for a zero divisor, and the truncating quotient otherwise |
| Vec2.Vec2.Add | src/kf/math/vec2.hpp:31-33 | componentwise sum; `AddSubInverse` shows `-` undoes it and that it commutes |
| Vec2.Vec2.Sub | src/kf/math/vec2.hpp:36-38 | componentwise difference; `AddSubInverse` shows `+` undoes it |
| Vec2.Vec2.Scale | src/kf/math/vec2.hpp:41-43 | componentwise product; `ScaleUnits` and `ScaleThenDivide` state its properties |
| Vec2.Vec2.Div | src/kf/math/vec2.hpp:55-57 | componentwise truncating quotient; `ScaleThenDivide` shows it undoes scaling |
| Vec2.Vec2.Dot | src/kf/math/vec2.hpp:90-92 | the dot product; `DotProperties` shows it is symmetric and that a vector's square is 0 exactly for the zero vector |
| Vec2.Vec2.IsZero | src/kf/math/vec2.hpp:95-97 | both components are 0; `DotProperties` relates it to the square |
| Vec2.AddAssign | src/kf/math/vec2.hpp:60-64 | `+=` yields the sum, from which subtracting the addend gives back the original |
| Vec2.SubAssign | src/kf/math/vec2.hpp:67-71 | `-=` yields the difference, to which adding the subtrahend gives back the original |
| Vec2.AddSubInverse | src/kf/math/vec2.hpp:31-38 | `-` undoes `+` and the reverse, and `+` commutes |
| Vec2.ScaleUnits | src/kf/math/vec2.hpp:41-43 | scaling by 0 gives the zero vector and scaling by 1 the vector itself |
| Vec2.ScaleThenDivide | src/kf/math/vec2.hpp:41-52 | a checked division by a nonzero scalar undoes scaling by it |
| Vec2.DotProperties | src/kf/math/vec2.hpp:90-97 | `dot` is symmetric, and a vector's square is never negative and is 0 exactly for the zero vector |
| Vec3.Vec3.DivChecked | src/kf/math/vec3.hpp:46-52 | no vector exactly for a zero divisor, and the truncating quotient otherwise |
| Vec3.Vec3.Add | src/kf/math/vec3.hpp:31-33 | componentwise sum; `AddSubInverse` shows `-` undoes it and that it commutes |
| Vec3.Vec3.Sub | src/kf/math/vec3.hpp:36-38 | componentwise difference; `AddSubInverse` shows `+` undoes it |
| Vec3.Vec3.Scale | src/kf/math/vec3.hpp:41-43 | componentwise product; `ScaleThenDivide` shows a checked division undoes it |
| Vec3.Vec3.Div | src/kf/math/vec3.hpp:55-57 | componentwise truncating quotient; `ScaleThenDivide` shows it undoes scaling |
| Vec3.Vec3.Dot | src/kf/math/vec3.hpp:92-94 | the dot product; `DotProperties` shows it is symmetric and that a vector's square is 0 exactly for the zero vector |
| Vec3.Vec3.Cross | src/kf/math/vec3.hpp:97-102 | the cross product; `CrossAntiCommutative`, `CrossSelfZero` and `CrossOrthogonal` state its properties |
| Vec3.Vec3.IsZero | src/kf/math/vec3.hpp:105-107 | all three components are 0; `DotProperties` relates it to the square |
| Vec3.AddAssign | src/kf/math/vec3.hpp:60-65 | `+=` yields the sum, from which subtracting the addend gives back the original |
| Vec3.SubAssign | src/kf/math/vec3.hpp:68-73 | `-=` yields the difference, to which adding the subtrahend gives back the original |
| Vec3.AddSubInverse | src/kf/math/vec3.hpp:31-36 | `-` undoes `+` and the reverse, and `+` commutes |
| Vec3.ScaleThenDivide | src/kf/math/vec3.hpp:41-52 | a checked division by a nonzero scalar undoes scaling by it |
| Vec3.DotProperties | src/kf/math/vec3.hpp:92-105 | `dot` is symmetric, and a vector's square is never negative and is 0 exactly for the zero vector |
| Vec3.CrossAntiCommutative | src/kf/math/vec3.hpp:97-102 | `a.cross(b)` is the negation of `b.cross(a)` |
| Vec3.CrossSelfZero | src/kf/math/vec3.hpp:97-105 | a vector crossed with itself is zero |
| Vec3.CrossOrthogonal | src/kf/math/vec3.hpp:92-102 | the cross product is orthogonal to both of its factors |
| TimeoutManager.TimeoutManager.constructor | src/kf/math/time/TimeoutManager.hpp:22-26 | a new manager keeps the duration, and its deadline is 0 |
| TimeoutManager.TimeoutManager.Update | src/kf/math/time/TimeoutManager.hpp:30-32 | the deadline becomes `now + timeout` modulo 2^32, exactly that sum when it does not wrap |
| TimeoutManager.TimeoutManager.Expired | src/kf/math/time/TimeoutManager.hpp:37 | `expired(now)` is `now >= next_timeout` in `u32`; `FreshManagerExpired`, `ExpiresAfterTimeout` and `ExpiredMonotone` state its behaviour |
| TimeoutManager.FreshManagerExpired | src/kf/math/time/TimeoutManager.hpp:22-37 | before any update every instant has expired |
| TimeoutManager.ExpiresAfterTimeout | src/kf/math/time/TimeoutManager.hpp:30-37 | after `update(t)` without wrap-around, exactly the instants from `t + timeout` on have expired |
| TimeoutManager.ExpiredMonotone | src/kf/math/time/TimeoutManager.hpp:37 | once expired, every later instant is expired too |
| Button.Read | src/kf/drivers/input/Button.hpp:76-81 | a pull-up button is pressed when its pin reads low, a pull-down one when it reads high |
| Button.MatchMode | src/kf/drivers/input/Button.hpp:84-96 | an external pull needs a plain input; an internal one needs the resistor matching the mode |
| Button.Button.constructor | src/kf/drivers/input/Button.hpp:39-51 | a new button has never been pressed and was last seen released |
| Button.Button.Poll | src/kf/drivers/input/Button.hpp:59-73 | a press is accepted exactly on a rising edge more than 50 ms (in `u32` arithmetic) after the last accepted press, and then becomes the last press; the handler runs exactly for an accepted press when one is set; the state seen is remembered |
| Button.Debounced | src/kf/drivers/input/Button.hpp:64 | a press counts only more than 50 ms after the last one, in `u32` arithmetic; `BounceIgnored` shows a press within the window is ignored |
| Button.HeldFiresOnce | src/kf/drivers/input/Button.hpp:59-73 | a button held down fires once, not on every poll |
| Button.BounceIgnored | src/kf/drivers/input/Button.hpp:31-73 | a second press within 50 ms of an accepted one is ignored |
| PwmPositionServo.PwmSettings.Valid | src/kf/drivers/zms/PwmPositionServo.hpp:29-33 | `check` of the PWM settings: a positive frequency and a resolution of 8 to 16 bits; `MaxDutyFitsU16` relies on it |
| PwmPositionServo.DriverSettings.Valid | src/kf/drivers/zms/PwmPositionServo.hpp:46-49 | `check` of the driver settings: a channel of at most 15 and `min_angle < max_angle`; stated by `DriverSettingsMeaning` |
| PwmPositionServo.DriverSettingsMeaning | src/kf/drivers/zms/PwmPositionServo.hpp:46-49 | valid driver settings name one of the 16 LEDC channels and a non-empty angle range, and only those |
| PwmPositionServo.PulseSettings.Valid | src/kf/drivers/zms/PwmPositionServo.hpp:70-73 | `check` of the pulse settings: `min_position.pulse < max_position.pulse` and `min_position.angle < max_position.angle`; `PulseWithinRange` relies on it |
| PwmPositionServo.MaxDuty | src/kf/drivers/zms/PwmPositionServo.hpp:20-22 | the maximum duty is `2^bits - 1` |
| PwmPositionServo.DutyFromPulseWidth | src/kf/drivers/zms/PwmPositionServo.hpp:24-27 | `dutyFromPulseWidth` truncated to `u16`; `DutyMonotone` gives the exact quotient and its monotonicity |
| PwmPositionServo.MaxDutyFitsU16 | src/kf/drivers/zms/PwmPositionServo.hpp:20-33 | for settings that pass `check`, the maximum duty is 255 to 65535 |
| PwmPositionServo.DutyMonotone | src/kf/drivers/zms/PwmPositionServo.hpp:24-27 | without 16-bit truncation the duty is the exact quotient and grows with the pulse width |
| PwmPositionServo.PulseWithinRange | src/kf/drivers/zms/PwmPositionServo.hpp:61-73 | for settings that pass `check`, the pulse width lies within the pulse range, and an angle at or beyond an end gives that end's pulse |
| PwmPositionServo.PulseWidthFromAngle | src/kf/drivers/zms/PwmPositionServo.hpp:61-68 | the angle is clamped to its range and mapped onto the pulse range; `PulseWithinRange` states the result |
| PwmPositionServo.Constrain | src/kf/drivers/zms/PwmPositionServo.hpp:63 | Arduino's `constrain`: the result lies between the bounds, and a value already between them is kept |
| PwmPositionServo.Map | src/kf/drivers/zms/PwmPositionServo.hpp:62-67 | Arduino's `map`, with truncating division; `MapWithin` shows it sends the input range into the output range |
| PwmPositionServo.MapWithin | src/kf/drivers/zms/PwmPositionServo.hpp:62-67 | `map` sends the input range into the output range, and the ends onto the ends |

## Left out

- Signed overflow. The source's signed arithmetic is modelled on unbounded
  integers; overflow there is undefined behaviour in C++. This covers
  `ValueAdjuster`, `StepAdjuster`, `vec2` and `vec3`, the SpinBox value
  and `print(i32)` negating a number. Unsigned `u32`/`usize` wrap-around is
  modelled wherever the source relies on it: the cursor step,
  `TimeoutManager`, and `Button`'s debounce.
- Floating point: `print(f64)`, the `f32`/`f64` `valueImpl`s, the float
  and double `StepAdjuster` traits, `vec2`/`vec3` `length` and
  `normalized`, and the float vector aliases.
- Hardware: LEDC setup and output, `pinMode`, `digitalRead` and `millis`.
  Pin levels and times are parameters, and `Button::init` reduces to
  `MatchMode`.
- Concurrency: `addEvent` from an interrupt and any other concurrent use of
  the engine.
- Callbacks and hooks. Handler bodies, `onEntry`, `onExit`, `onUpdate` and
  the render-finish callback are calls whose effects the model cannot see.
  They are recorded in the trace, or returned as the text the callback
  receives.
- Widget rendering. In the engine, drawing is the trace of renderer calls
  (`Piece`s) that `Widgets.Render` produces; the engine is not connected to
  a text renderer. `beginWidget` draws nothing in either text renderer.
  Display's reference to an external value is modelled as the value
  itself.
- Renderer configuration. Row length, row count, buffer and callback are
  fixed at construction; the source lets a client change `config` between
  renders.
- TextRender.TextRender.Finish: requires at least one written character
  when a buffer is attached, because `buffer[buffer_cursor - 1]` with a
  cursor of 0 writes before the buffer.
- TextBufferRender.TextBufferRender.Finish: requires a non-empty buffer for
  the same reason. The null-data branch cannot be taken for a buffer
  `ArrayString<N>` owns, and is not modelled. `ArrayString<N>` is an
  alias of `kf::Array<char, N>` (src/kf/memory/String.hpp:15), and that
  class has no `push`, `full`, `clear` or `view`, which the renderer calls
  (src/kf/ui/TextBufferRender.hpp:55, 69, 211, 224-232). Their behaviour
  is the model's assumption: `push` appends one character while the
  buffer holds fewer than N, `full` means N characters, `clear` empties
  the buffer, `size()` counts the characters held (the `size()` of
  `kf::Array` is always N), and `view()` gives the callback the whole
  buffer.
- TextRender.TextRender.PrintInt and
  TextBufferRender.TextBufferRender.PrintInt: exclude `INT_MIN`, whose
  negation overflows.
- TextRender.TextRender.PrintString and
  TextBufferRender.TextBufferRender.PrintString: read a view up to its
  first NUL, or up to its end when it has none. Both source loops
  (src/kf/ui/TextRender.hpp:146-161, src/kf/ui/TextBufferRender.hpp:125-136)
  ignore the view's size and read past the end of a view that is not
  NUL-terminated.
- TextRender.TextRender.Title, TextRender.TextRender.ValueText,
  TextBufferRender.TextBufferRender.Title and
  TextBufferRender.TextBufferRender.ValueText: print through `print`, so
  they too stop at the end of a view that has no NUL.
- UI.WidgetCreated and UI.Engine.CreateWidget: the engine accepts only
  widgets with `Widgets.DivisorOk`, so a Geometric SpinBox with step 0
  (which src/kf/UI.hpp:451-462 lets a client build) is not placed in the
  engine. Its value-mode decrease divides by zero
  (src/kf/ui/detail/ValueAdjuster.hpp:34-40), and allowing it would need
  every queued value event to be checked against the state it reaches.
  Outside the engine the requirement sits only at that division:
  `Widgets.NewSpinBox` accepts step 0, and `Widgets.OnValue`,
  `Widgets.LabeledForwards` and `Widgets.SpinBoxEvents` require only
  `Widgets.ValueDefined`.
- Widgets.Scalar and Widgets.Item: `Display<T>` and `ComboBox<T, N>` are
  templates. `Display` is modelled for strings, `i32` and `bool`, the
  non-floating `value` overloads, and a ComboBox item's value is an
  integer; item values of other types are not modelled.
- Characters. A Dafny `char` stands for one byte of the C++ `char`. A
  title in UTF-8 therefore counts its bytes, not its code points, toward
  `row_max_length`.
- PwmPositionServo.Map and PwmPositionServo.PulseWithinRange: Arduino's
  `map` computes `(x - in_min) * (out_max - out_min)` in 32-bit `long` on
  the ESP32, and the model computes it on unbounded integers. Settings
  that pass `check` can overflow that product, for example angles 0 to
  65535 with pulses 0 to 40000, and the pulse-range property does not
  cover the wrapped result. `Map` also requires `in_max != in_min`, so the
  zero-run branch of Arduino's `map` is not modelled. The input range of
  `map` is `PulseSettings`' `min_position.angle` to `max_position.angle`
  (src/kf/drivers/zms/PwmPositionServo.hpp:62-63), and settings that pass
  its `check` (src/kf/drivers/zms/PwmPositionServo.hpp:72) have
  `min_position.angle < max_position.angle`, so they never reach it.
- PwmPositionServo.DriverSettings.Valid: only a definition, stated by
  `PwmPositionServo.DriverSettingsMeaning`. The channel it checks feeds the
  LEDC calls, which are hardware, and no arithmetic of the driver reads its
  angle range.
- Array.Equal and Array.NotEqual: element equality is Dafny's structural
  `==`, where the source calls the element type's `operator==`; `<` takes
  the element order as a parameter.
- Parts of the library outside this core: `Render.hpp` (the CRTP front
  end, which only forwards), `Queue::swap`, `Array::swap`, EspNow, the
  bytelang streams, `Encoder`, `Sharp`, `Logger`, `formatTo`,
  `ColorPalette` and `tools/grab.py`.

## Findings

| source | as written | input that shows it | evidently intended | confidence | as-written member | corrected member |
|---|---|---|---|---|---|---|
| src/kf/UI.hpp:199 (and the same step at src/kf/UI.hpp:381) | `(cursor + delta + n) % n` in 32-bit `usize`: a sum below zero wraps to `2^32 + sum` before the remainder | 3 widgets, cursor 0, `delta` = -16: the sum -13 wraps to 4294967283, whose remainder mod 3 is 0, so the cursor stays on widget 0 | a circular move to `(cursor + delta) mod n`, which is widget 2 | not executed | Widgets.CursorStepCounterexample | Widgets.IntendedCursorStep |

`Widgets.CursorStep` is the step as written, and the engine and the
ComboBox use it, because they model what the code does.
`Widgets.IntendedAgreesInRange` shows that the two steps agree whenever
`cursor + delta + n` does not go below zero, which covers every move of at
most `n` widgets. `Widgets.PowerOfTwoAgrees` shows that they agree for
every move when `n` is a power of two.
