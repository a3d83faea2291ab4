/**
 * The menu engine: pages holding widgets and a focus cursor, a FIFO event
 * queue, page binding with exit/entry hooks, and the `poll` loop that
 * dispatches at most twenty events to the active page and redraws it at most
 * once. Widgets live in one arena (`widgets`); a page lists the arena slots of
 * its widgets, so a widget added to two pages is one shared object, as a
 * `Widget *` is in the source. The renderer and all handlers and hooks are
 * recorded as a trace of calls.
 */
module UI {
  import opened CInt
  import opened Wrappers
  import opened Widgets
  import opened Queue
  import Events

  /** `max_events_per_poll`. */
  const MaxEventsPerPoll: nat := 20

  /** A page: its title, the arena slots of its widgets, the focus cursor and its own `to_this` PageSetter. */
  datatype Page = Page(title: string, widgets: seq<nat>, cursor: nat, toThis: nat)

  /** Everything the engine holds except the event queue. */
  datatype UIState = UIState(pages: seq<Page>, widgets: seq<Widget>, active: Option<nat>, trace: seq<Call>)

  /**
   * Page `i` is consistent: its `to_this` slot holds a PageSetter leading to
   * it, its widgets exist, and its cursor is 0 or on one of its widgets.
   */
  predicate PageOk(s: UIState, i: nat)
    requires i < |s.pages|
  {
    var p := s.pages[i];
    && p.toThis < |s.widgets| && s.widgets[p.toThis] == PageSetter(i)
    && (forall k :: 0 <= k < |p.widgets| ==> p.widgets[k] < |s.widgets|)
    && (p.cursor == 0 || p.cursor < |p.widgets|)
  }

  /** Every widget keeps its own invariant and leads only to existing pages. */
  predicate SlotOk(s: UIState, j: nat)
    requires j < |s.widgets|
  {
    && WidgetOk(s.widgets[j]) && DivisorOk(s.widgets[j])
    && (Target(s.widgets[j]).Some? ==> Target(s.widgets[j]).value < |s.pages|)
  }

  /** The engine invariant. */
  predicate Wf(s: UIState)
  {
    && (forall i :: 0 <= i < |s.pages| ==> PageOk(s, i))
    && (forall j :: 0 <= j < |s.widgets| ==> SlotOk(s, j))
    && (s.active.Some? ==> s.active.value < |s.pages|)
  }

  function Titles(s: UIState): (r: seq<string>)
    ensures |r| == |s.pages|
    ensures forall i :: 0 <= i < |s.pages| ==> r[i] == s.pages[i].title
  {
    seq(|s.pages|, i requires 0 <= i < |s.pages| => s.pages[i].title)
  }

  function Min(a: nat, b: nat): nat
  {
    if a < b then a else b
  }

  /** How many `prepare` calls a trace holds. */
  function Prepares(t: seq<Call>): nat
  {
    multiset(t)[Prepare]
  }

  /** The trace only grows, and what it gains holds no `prepare`. */
  predicate Extends(s: UIState, r: UIState)
  {
    s.trace <= r.trace && Prepares(r.trace) == Prepares(s.trace)
  }

  /** What a handler may change: widget states, the cursor, the active page and the trace. */
  predicate SameShape(s: UIState, r: UIState)
  {
    && |r.pages| == |s.pages| && |r.widgets| == |s.widgets|
    && (forall i :: 0 <= i < |s.pages| ==> r.pages[i].widgets == s.pages[i].widgets)
    && Titles(r) == Titles(s)
  }

  // Building pages.

  /** `Page(title)`: a page without widgets, whose `to_this` PageSetter is a new widget. */
  function PageAdded(s: UIState, title: string): (r: (UIState, nat))
    requires Wf(s)
    ensures Wf(r.0) && r.1 == |s.pages| && |r.0.pages| == |s.pages| + 1 && |r.0.widgets| == |s.widgets| + 1
    ensures r.0.pages[r.1].widgets == [] && r.0.pages[r.1].title == title
    ensures r.0.pages[r.1].toThis == |s.widgets| && r.0.widgets[|s.widgets|] == PageSetter(r.1)
    ensures r.0.pages[..|s.pages|] == s.pages && r.0.widgets[..|s.widgets|] == s.widgets
  {
    var p := |s.pages|;
    var r := s.(pages := s.pages + [Page(title, [], 0, |s.widgets|)], widgets := s.widgets + [PageSetter(p)]);
    assert forall i :: 0 <= i < |r.pages| ==> PageOk(r, i) by {
      forall i | 0 <= i < |r.pages|
        ensures PageOk(r, i)
      {
        if i < p {
          assert PageOk(s, i);
        }
      }
    }
    assert forall j :: 0 <= j < |r.widgets| ==> SlotOk(r, j) by {
      forall j | 0 <= j < |r.widgets|
        ensures SlotOk(r, j)
      {
        if j < |s.widgets| {
          assert SlotOk(s, j);
        }
      }
    }
    (r, p)
  }

  /** A widget built without a page: a new arena slot on no page. */
  function WidgetCreated(s: UIState, w: Widget): (r: (UIState, nat))
    requires Wf(s) && Public(w) && WidgetOk(w) && DivisorOk(w)
    ensures Wf(r.0) && r.1 == |s.widgets| && r.0.widgets == s.widgets + [w]
    ensures r.0.pages == s.pages
  {
    var r := s.(widgets := s.widgets + [w]);
    assert forall i :: 0 <= i < |r.pages| ==> PageOk(r, i) by {
      forall i | 0 <= i < |r.pages|
        ensures PageOk(r, i)
      {
        assert PageOk(s, i);
      }
    }
    assert forall j :: 0 <= j < |r.widgets| ==> SlotOk(r, j) by {
      forall j | 0 <= j < |r.widgets|
        ensures SlotOk(r, j)
      {
        if j < |s.widgets| {
          assert SlotOk(s, j);
        }
      }
    }
    (r, |s.widgets|)
  }

  /** `Page::addWidget`: append to the page's list; nothing else changes, the cursor included. */
  function WidgetAdded(s: UIState, p: nat, id: nat): (r: UIState)
    requires Wf(s) && p < |s.pages| && id < |s.widgets|
    ensures Wf(r) && |r.pages| == |s.pages|
    ensures r.pages[p] == s.pages[p].(widgets := s.pages[p].widgets + [id])
    ensures forall i :: 0 <= i < |s.pages| && i != p ==> r.pages[i] == s.pages[i]
    ensures r.widgets == s.widgets && r.active == s.active && r.trace == s.trace
  {
    var page := s.pages[p];
    var r := s.(pages := s.pages[p := page.(widgets := page.widgets + [id])]);
    assert forall i :: 0 <= i < |r.pages| ==> PageOk(r, i) by {
      forall i | 0 <= i < |r.pages|
        ensures PageOk(r, i)
      {
        assert PageOk(s, i);
      }
    }
    assert forall j :: 0 <= j < |r.widgets| ==> SlotOk(r, j) by {
      forall j | 0 <= j < |r.widgets|
        ensures SlotOk(r, j)
      {
        assert SlotOk(s, j);
      }
    }
    r
  }

  /** `Page::link`: each page gains the other's `to_this`. */
  function Linked(s: UIState, p: nat, q: nat): (r: UIState)
    requires Wf(s) && p < |s.pages| && q < |s.pages|
    ensures Wf(r)
  {
    assert PageOk(s, q);
    var s1 := WidgetAdded(s, p, s.pages[q].toThis);
    assert PageOk(s1, p);
    WidgetAdded(s1, q, s1.pages[p].toThis)
  }

  // Binding and events.

  /** `bindPage`: leave the bound page if there is one, then enter `p`, even if it was already bound. */
  function Bound(s: UIState, p: nat): (r: UIState)
    requires Wf(s) && p < |s.pages|
    ensures Wf(r) && r.active == Some(p)
    ensures r.pages == s.pages && r.widgets == s.widgets
  {
    var exit := if s.active.Some? then [PageExited(s.active.value)] else [];
    var r := s.(active := Some(p), trace := s.trace + exit + [PageEntered(p)]);
    assert forall i :: 0 <= i < |r.pages| ==> PageOk(r, i) by {
      forall i | 0 <= i < |r.pages|
        ensures PageOk(r, i)
      {
        assert PageOk(s, i);
      }
    }
    assert forall j :: 0 <= j < |r.widgets| ==> SlotOk(r, j) by {
      forall j | 0 <= j < |r.widgets|
        ensures SlotOk(r, j)
      {
        assert SlotOk(s, j);
      }
    }
    r
  }

  /** The page currently bound. */
  function ActivePage(s: UIState): (p: Page)
    requires Wf(s) && s.active.Some?
  {
    s.pages[s.active.value]
  }

  /** `Page::moveCursor` on the active page: reports a redraw whenever it has two widgets or more. */
  function CursorMoved(s: UIState, delta: int): (r: (UIState, bool))
    requires Wf(s) && s.active.Some?
    ensures Wf(r.0) && r.0.active == s.active && r.0.trace == s.trace && r.0.widgets == s.widgets
  {
    var a := s.active.value;
    var page := s.pages[a];
    var n := |page.widgets|;
    if n > 1 then
      var r := s.(pages := s.pages[a := page.(cursor := CursorStep(page.cursor, delta, n))]);
      assert forall i :: 0 <= i < |r.pages| ==> PageOk(r, i) by {
        forall i | 0 <= i < |r.pages|
          ensures PageOk(r, i)
        {
          assert PageOk(s, i);
        }
      }
      assert forall j :: 0 <= j < |r.widgets| ==> SlotOk(r, j) by {
        forall j | 0 <= j < |r.widgets|
          ensures SlotOk(r, j)
        {
          assert SlotOk(s, j);
        }
      }
      (r, true)
    else
      (s, false)
  }

  /** Replacing the widget in slot `id` by a handler's result keeps the engine invariant. */
  lemma WidgetReplaced(s: UIState, id: nat, w: Widget, trace: seq<Call>)
    requires Wf(s) && id < |s.widgets|
    requires WidgetOk(w) && DivisorOk(w) && Target(w) == Target(s.widgets[id])
    requires s.widgets[id].PageSetter? ==> w == s.widgets[id]
    ensures Wf(s.(widgets := s.widgets[id := w], trace := trace))
  {
    var r := s.(widgets := s.widgets[id := w], trace := trace);
    forall i | 0 <= i < |r.pages|
      ensures PageOk(r, i)
    {
      assert PageOk(s, i);
    }
    forall j | 0 <= j < |r.widgets|
      ensures SlotOk(r, j)
    {
      assert SlotOk(s, j);
    }
  }

  /** The widget under the active page's cursor handles an outcome: its new state, its calls, its binding. */
  function Applied(s: UIState, id: nat, o: Outcome): (r: (UIState, bool))
    requires Wf(s) && s.active.Some? && id < |s.widgets|
    requires WidgetOk(o.widget) && DivisorOk(o.widget) && Target(o.widget) == Target(s.widgets[id])
    requires s.widgets[id].PageSetter? ==> o.widget == s.widgets[id]
    requires o.bind.Some? ==> o.bind == Target(s.widgets[id])
    requires Prepare !in o.calls
    ensures Wf(r.0) && r.0.active.Some?
    ensures r.1 == o.redraw
  {
    WidgetReplaced(s, id, o.widget, s.trace + o.calls);
    var s1 := s.(widgets := s.widgets[id := o.widget], trace := s.trace + o.calls);
    assert SlotOk(s, id);
    if o.bind.Some? then
      var s2 := Bound(s1, o.bind.value);
      (s2, o.redraw)
    else
      (s1, o.redraw)
  }

  /** The click case of `Page::onEvent`, for a page with widgets. */
  function Clicked(s: UIState): (r: (UIState, bool))
    requires Wf(s) && s.active.Some? && |ActivePage(s).widgets| > 0
    ensures Wf(r.0) && r.0.active.Some?
  {
    var page := ActivePage(s);
    assert PageOk(s, s.active.value);
    var id := page.widgets[page.cursor];
    assert SlotOk(s, id);
    Applied(s, id, OnClick(s.widgets[id], id))
  }

  /** The value-change case of `Page::onEvent`: nothing happens on a page without widgets. */
  function ValueChanged(s: UIState, v: I8): (r: (UIState, bool))
    requires Wf(s) && s.active.Some?
    ensures Wf(r.0) && r.0.active.Some?
  {
    var page := ActivePage(s);
    if |page.widgets| > 0 then
      assert PageOk(s, s.active.value);
      var id := page.widgets[page.cursor];
      assert SlotOk(s, id);
      DivisorDefines(s.widgets[id], v);
      Applied(s, id, OnValue(s.widgets[id], id, v))
    else
      (s, false)
  }

  /**
   * `Page::onEvent` on the active page. The click case has no `break`: on a
   * page without widgets it falls into the value-change case, which then
   * finds no widget either.
   */
  function EventHandled(s: UIState, e: Events.Event): (r: (UIState, bool))
    requires Wf(s) && s.active.Some?
    ensures Wf(r.0) && r.0.active.Some?
  {
    match Events.TypeOf(e)
    case Update =>
      (s, true)
    case PageCursorMove => CursorMoved(s, Events.ValueOf(e))
    case WidgetClick =>
      if |ActivePage(s).widgets| > 0 then Clicked(s) else ValueChanged(s, Events.ValueOf(e))
    case WidgetValueChange => ValueChanged(s, Events.ValueOf(e))
    case _ =>
      (s, false)
  }

  /** The events handled in order, each by the page active when it is reached; the flag ORs their results. */
  function Dispatched(s: UIState, es: seq<Events.Event>): (r: (UIState, bool))
    requires Wf(s) && s.active.Some?
    ensures Wf(r.0) && r.0.active.Some?
    decreases |es|
  {
    if es == [] then
      (s, false)
    else
      var d := Dispatched(s, es[..|es| - 1]);
      var h := EventHandled(d.0, es[|es| - 1]);
      (h.0, d.1 || h.1)
  }

  /** One more event taken from the queue by the loop of `UI::poll`. */
  lemma DispatchedStep(s: UIState, queue: seq<Events.Event>, i: nat)
    requires Wf(s) && s.active.Some? && i < |queue|
    ensures var d := Dispatched(s, queue[..i]); var h := EventHandled(d.0, queue[i]);
      Dispatched(s, queue[..i + 1]) == (h.0, d.1 || h.1)
  {
    assert queue[..i + 1][..i] == queue[..i];
  }

  // Rendering.

  /**
   * The rows `[start, end)` that `Page::render` draws: everything when it
   * fits, otherwise `available` rows starting at the cursor, pulled back so
   * that the window does not run past the last widget.
   */
  function Window(total: nat, cursor: nat, available: nat): (r: (nat, nat))
    ensures r.0 <= r.1 <= total && r.1 - r.0 <= available
    ensures available >= 1 && cursor < total ==> r.0 <= cursor < r.1
    ensures total <= available ==> r == (0, total)
  {
    var start := if total > available then Min(cursor, total - available) else 0;
    (start, Min(start + available, total))
  }

  /**
   * The widgets `[start, end)` of page `a`, one slot each, in order; a slot
   * is drawn focused exactly when it is the cursor's.
   */
  function Slots(s: UIState, a: nat, start: nat, end: nat): (r: seq<Call>)
    requires Wf(s) && a < |s.pages| && start <= end <= |s.pages[a].widgets|
    ensures |r| == end - start
    ensures forall k :: 0 <= k < |r| ==>
      r[k].Slot? && r[k].index == start + k && (BeginFocused in r[k].pieces <==> start + k == s.pages[a].cursor)
    decreases end - start
  {
    if end == start then []
    else
      var page := s.pages[a];
      assert PageOk(s, a);
      var id := page.widgets[end - 1];
      assert SlotOk(s, id);
      Slots(s, a, start, end - 1) + [Slot(end - 1, Widgets.Render(s.widgets[id], end - 1 == page.cursor, Titles(s)))]
  }

  /** One more widget drawn by the loop of `Page::render`. */
  lemma SlotsStep(s: UIState, a: nat, start: nat, i: nat)
    requires Wf(s) && a < |s.pages| && start <= i < |s.pages[a].widgets|
    ensures s.pages[a].widgets[i] < |s.widgets|
    ensures WidgetOk(s.widgets[s.pages[a].widgets[i]])
    ensures var w := s.widgets[s.pages[a].widgets[i]]; Target(w).Some? ==> Target(w).value < |Titles(s)|
    ensures Slots(s, a, start, i + 1)
      == Slots(s, a, start, i) + [Slot(i, Widgets.Render(s.widgets[s.pages[a].widgets[i]], i == s.pages[a].cursor, Titles(s)))]
  {
    assert PageOk(s, a);
    assert SlotOk(s, s.pages[a].widgets[i]);
  }

  /** The loop of `Page::render`: `beginWidget`, the widget's own drawing, `endWidget`, for each visible widget. */
  method DrawSlots(ghost s: UIState, a: nat, page: Page, arena: seq<Widget>, titles: seq<string>, start: nat, end: nat)
    returns (slots: seq<Call>)
    requires Wf(s) && a < |s.pages| && page == s.pages[a] && arena == s.widgets && titles == Titles(s)
    requires start <= end <= |page.widgets|
    ensures slots == Slots(s, a, start, end)
  {
    slots := [];
    var i := start;
    while i < end
      invariant start <= i <= end
      invariant slots == Slots(s, a, start, i)
    {
      var id := page.widgets[i];
      SlotsStep(s, a, start, i);
      slots := slots + [Slot(i, Widgets.Render(arena[id], i == page.cursor, titles))];
      i := i + 1;
    }
  }

  /** `Page::render` of page `a` with room for `available` widgets. */
  function PageRender(s: UIState, a: nat, available: nat): (r: seq<Call>)
    requires Wf(s) && a < |s.pages|
    ensures |r| >= 1 && r[0] == Title(s.pages[a].title)
    ensures forall k :: 1 <= k < |r| ==>
      r[k].Slot? && (BeginFocused in r[k].pieces <==> r[k].index == s.pages[a].cursor)
  {
    var page := s.pages[a];
    var w := Window(|page.widgets|, page.cursor, available);
    [Title(page.title)] + Slots(s, a, w.0, w.1)
  }

  /** One redraw of the active page: `prepare`, the page, `finish`. */
  function Rendered(s: UIState, available: nat): (r: UIState)
    requires Wf(s) && s.active.Some?
    ensures Wf(r)
  {
    var r := s.(trace := s.trace + [Prepare] + PageRender(s, s.active.value, available) + [Finish]);
    assert forall i :: 0 <= i < |r.pages| ==> PageOk(r, i) by {
      forall i | 0 <= i < |r.pages|
        ensures PageOk(r, i)
      {
        assert PageOk(s, i);
      }
    }
    assert forall j :: 0 <= j < |r.widgets| ==> SlotOk(r, j) by {
      forall j | 0 <= j < |r.widgets|
        ensures SlotOk(r, j)
      {
        assert SlotOk(s, j);
      }
    }
    r
  }

  /** How many events one `poll` takes from a queue of `count`. */
  function Taken(count: nat): (k: nat)
    ensures k <= count && k <= MaxEventsPerPoll
    ensures k == count || k == MaxEventsPerPoll
  {
    Min(count, MaxEventsPerPoll)
  }

  /**
   * `UI::poll(now)`: nothing without a bound page; otherwise the page's
   * update hook, then up to twenty queued events, then one redraw if any of
   * them asked for it. The second component is the queue afterwards.
   */
  function Polled(s: UIState, queue: seq<Events.Event>, now: U32, available: nat): (r: (UIState, seq<Events.Event>))
    requires Wf(s)
    ensures Wf(r.0)
  {
    if s.active.None? then (s, queue)
    else
      var s1 := Updated(s, now);
      if queue == [] then (s1, queue)
      else
        var k := Taken(|queue|);
        var d := Dispatched(s1, queue[..k]);
        (if d.1 then Rendered(d.0, available) else d.0, queue[k..])
  }

  /** The active page's `onUpdate(now)` hook. */
  function Updated(s: UIState, now: U32): (r: UIState)
    requires Wf(s) && s.active.Some?
    ensures Wf(r) && r.active == s.active
  {
    var r := s.(trace := s.trace + [PageUpdated(s.active.value, now)]);
    assert forall i :: 0 <= i < |r.pages| ==> PageOk(r, i) by {
      forall i | 0 <= i < |r.pages|
        ensures PageOk(r, i)
      {
        assert PageOk(s, i);
      }
    }
    assert forall j :: 0 <= j < |r.widgets| ==> SlotOk(r, j) by {
      forall j | 0 <= j < |r.widgets|
        ensures SlotOk(r, j)
      {
        assert SlotOk(s, j);
      }
    }
    r
  }

  /** The engine: `UI` as an object rather than a singleton. */
  class Engine {
    var pages: seq<Page>
    var widgets: seq<Widget>
    var active: Option<nat>
    /** Every renderer call, handler call and page hook so far. */
    var trace: seq<Call>
    const events: Queue<Events.Event>
    ghost var Repr: set<object>

    function State(): UIState
      reads this
    {
      UIState(pages, widgets, active, trace)
    }

    ghost predicate Valid()
      reads this, Repr
      ensures Valid() ==> this in Repr
    {
      && this in Repr && events in Repr && events.Repr <= Repr && this !in events.Repr
      && events.Valid() && Wf(State())
    }

    constructor ()
      ensures Valid() && fresh(Repr)
      ensures State() == UIState([], [], None, []) && events.Contents == []
    {
      pages := [];
      widgets := [];
      active := None;
      trace := [];
      events := new Queue<Events.Event>();
      new;
      Repr := {this} + events.Repr;
    }

    /** Builds a page and its `to_this` PageSetter. */
    method AddPage(title: string) returns (p: nat)
      requires Valid()
      modifies this
      ensures Valid() && Repr == old(Repr)
      ensures (State(), p) == PageAdded(old(State()), title)
    {
      ghost var r := PageAdded(State(), title);
      p := |pages|;
      pages := pages + [Page(title, [], 0, |widgets|)];
      widgets := widgets + [PageSetter(p)];
      assert State() == r.0;
    }

    /** Builds a widget on no page (the constructors without a root page). */
    method CreateWidget(w: Widget) returns (id: nat)
      requires Valid() && Public(w) && WidgetOk(w) && DivisorOk(w)
      modifies this
      ensures Valid() && Repr == old(Repr)
      ensures (State(), id) == WidgetCreated(old(State()), w)
    {
      ghost var r := WidgetCreated(State(), w);
      id := |widgets|;
      widgets := widgets + [w];
      assert State() == r.0;
    }

    /** `Page::addWidget`; a widget built with a root page is `CreateWidget` followed by this. */
    method AddWidget(p: nat, id: nat)
      requires Valid() && p < |pages| && id < |widgets|
      modifies this
      ensures Valid() && Repr == old(Repr)
      ensures State() == WidgetAdded(old(State()), p, id)
    {
      ghost var r := WidgetAdded(State(), p, id);
      var page := pages[p];
      pages := pages[p := page.(widgets := page.widgets + [id])];
      assert State() == r;
    }

    method Link(p: nat, q: nat)
      requires Valid() && p < |pages| && q < |pages|
      modifies this
      ensures Valid() && Repr == old(Repr)
      ensures State() == Linked(old(State()), p, q)
    {
      assert PageOk(State(), q);
      AddWidget(p, pages[q].toThis);
      assert PageOk(State(), p);
      AddWidget(q, pages[p].toThis);
    }

    method BindPage(p: nat)
      requires Valid() && p < |pages|
      modifies this
      ensures Valid() && Repr == old(Repr)
      ensures State() == Bound(old(State()), p)
    {
      ghost var r := Bound(State(), p);
      if active.Some? {
        trace := trace + [PageExited(active.value)];
      }
      active := Some(p);
      trace := trace + [PageEntered(p)];
      assert State() == r;
    }

    method AddEvent(e: Events.Event)
      requires Valid()
      modifies Repr
      ensures Valid() && fresh(Repr - old(Repr))
      ensures State() == old(State()) && events.Contents == old(events.Contents) + [e]
    {
      events.Push(e);
      Repr := Repr + events.Repr;
    }

    method MoveCursor(delta: int) returns (redraw: bool)
      requires Valid() && active.Some?
      modifies this
      ensures Valid() && Repr == old(Repr)
      ensures (State(), redraw) == CursorMoved(old(State()), delta)
    {
      ghost var r := CursorMoved(State(), delta);
      var a := active.value;
      var n := |pages[a].widgets|;
      if n > 1 {
        var page := pages[a];
        pages := pages[a := page.(cursor := ToU32(page.cursor + delta + n) % n)];
        redraw := true;
      } else {
        redraw := false;
      }
      assert State() == r.0;
    }

    /** Hands a handler's outcome for slot `id` to the engine. */
    method Apply(id: nat, o: Outcome) returns (redraw: bool)
      requires Valid() && active.Some? && id < |widgets|
      requires WidgetOk(o.widget) && DivisorOk(o.widget) && Target(o.widget) == Target(widgets[id])
      requires widgets[id].PageSetter? ==> o.widget == widgets[id]
      requires o.bind.Some? ==> o.bind == Target(widgets[id])
      requires Prepare !in o.calls
      modifies this
      ensures Valid() && Repr == old(Repr)
      ensures (State(), redraw) == Applied(old(State()), id, o)
    {
      ghost var r := Applied(State(), id, o);
      WidgetReplaced(State(), id, o.widget, trace + o.calls);
      assert SlotOk(State(), id);
      widgets := widgets[id := o.widget];
      trace := trace + o.calls;
      redraw := o.redraw;
      if o.bind.Some? {
        BindPage(o.bind.value);
      }
      assert State() == r.0;
    }

    /** The value-change case of `Page::onEvent`. */
    method ChangeValue(v: I8) returns (redraw: bool)
      requires Valid() && active.Some?
      modifies this
      ensures Valid() && Repr == old(Repr)
      ensures (State(), redraw) == ValueChanged(old(State()), v)
    {
      var page := pages[active.value];
      if |page.widgets| > 0 {
        assert PageOk(State(), active.value);
        var id := page.widgets[page.cursor];
        assert SlotOk(State(), id);
        DivisorDefines(widgets[id], v);
        redraw := Apply(id, OnValue(widgets[id], id, v));
      } else {
        redraw := false;
      }
    }

    /** `Page::onEvent` on the active page. */
    method HandleEvent(e: Events.Event) returns (redraw: bool)
      requires Valid() && active.Some?
      modifies this
      ensures Valid() && Repr == old(Repr)
      ensures (State(), redraw) == EventHandled(old(State()), e)
    {
      var page := pages[active.value];
      assert PageOk(State(), active.value);
      var n := |page.widgets|;
      match Events.TypeOf(e)
      case Update =>
        redraw := true;
      case PageCursorMove =>
        redraw := MoveCursor(Events.ValueOf(e));
      case WidgetClick =>
        if n > 0 {
          var id := page.widgets[page.cursor];
          assert SlotOk(State(), id);
          redraw := Apply(id, OnClick(widgets[id], id));
        } else {
          // No `break`: the click falls into the value-change case.
          redraw := ChangeValue(Events.ValueOf(e));
        }
      case WidgetValueChange =>
        redraw := ChangeValue(Events.ValueOf(e));
      case _ =>
        redraw := false;
    }

    /** `Page::render` of page `a`: the title, then the widgets of the visible window. */
    method RenderPage(a: nat, available: nat) returns (calls: seq<Call>)
      requires Wf(State()) && a < |pages|
      ensures calls == PageRender(State(), a, available)
    {
      ghost var s := State();
      var titles := Titles(State());
      var page := pages[a];
      var total := |page.widgets|;
      var start := if total > available then Min(page.cursor, total - available) else 0;
      var end := Min(start + available, total);
      assert (start, end) == Window(total, page.cursor, available);
      var slots := DrawSlots(s, a, page, widgets, titles, start, end);
      calls := [Title(page.title)] + slots;
    }

    /** `prepare`, `Page::render` of the active page, `finish`. */
    method RenderActive(available: nat)
      requires Valid() && active.Some?
      modifies this
      ensures Valid() && Repr == old(Repr)
      ensures State() == Rendered(old(State()), available)
    {
      var calls := RenderPage(active.value, available);
      trace := trace + [Prepare] + calls + [Finish];
      assert State() == Rendered(old(State()), available);
    }

    /** `events.pop()`: drops the front event and leaves everything else alone. */
    method PopEvent()
      requires Valid() && events.Contents != []
      modifies Repr
      ensures Valid() && fresh(Repr - old(Repr))
      ensures State() == old(State()) && events.Contents == old(events.Contents)[1..]
    {
      events.Pop();
      Repr := Repr + events.Repr;
    }

    /** The loop of `UI::poll`: up to twenty events from the front of the queue, each to the page active at that moment. */
    method DispatchQueued() returns (renderRequired: bool)
      requires Valid() && active.Some?
      modifies Repr
      ensures Valid() && fresh(Repr - old(Repr)) && active.Some?
      ensures var queue := old(events.Contents); var k := Taken(|queue|);
        && events.Contents == queue[k..]
        && (State(), renderRequired) == Dispatched(old(State()), queue[..k])
    {
      ghost var s := State();
      ghost var queue := events.Contents;
      var processed := 0;
      renderRequired := false;
      var empty := events.IsEmpty();
      while !empty && processed < MaxEventsPerPoll
        invariant Valid() && fresh(Repr - old(Repr)) && active.Some?
        invariant processed <= |queue| && processed <= MaxEventsPerPoll
        invariant events.Contents == queue[processed..]
        invariant empty <==> events.Contents == []
        invariant State() == Dispatched(s, queue[..processed]).0
        invariant renderRequired == Dispatched(s, queue[..processed]).1
        decreases |queue| - processed
      {
        var e := events.Front();
        DispatchedStep(s, queue, processed);
        var redraw := HandleEvent(e);
        renderRequired := renderRequired || redraw;
        processed := processed + 1;
        PopEvent();
        empty := events.IsEmpty();
      }
      assert processed == Taken(|queue|);
    }

    /** `UI::poll(now)`; `available` is what the renderer's `widgetsAvailable` reports after the title. */
    method Poll(now: U32, available: nat)
      requires Valid()
      modifies Repr
      ensures Valid() && fresh(Repr - old(Repr))
      ensures (State(), events.Contents) == Polled(old(State()), old(events.Contents), now, available)
    {
      if active.None? {
        return;
      }
      trace := trace + [PageUpdated(active.value, now)];
      assert State() == Updated(old(State()), now);
      var empty := events.IsEmpty();
      if empty {
        return;
      }
      var renderRequired := DispatchQueued();
      if renderRequired {
        RenderActive(available);
      }
    }
  }

  // Properties of the engine.

  /**
   * `moveCursor`: with two widgets or more it always reports a redraw, even
   * for a zero move, and leaves the cursor on a widget, one `delta` further
   * round the page while the unsigned sum does not wrap; with fewer widgets
   * it changes nothing and reports no redraw.
   */
  lemma MoveCursorBehaviour(s: UIState, delta: int)
    requires Wf(s) && s.active.Some?
    ensures var page := ActivePage(s); var n := |page.widgets|; var r := CursorMoved(s, delta);
      && (n >= 2 ==> r.1 && ActivePage(r.0).cursor < n)
      && (n >= 2 && 0 <= page.cursor + delta + n < U32_MODULUS ==>
            ActivePage(r.0).cursor == (page.cursor + delta) % n)
      && (n >= 2 && delta == 0 && page.cursor + n < U32_MODULUS ==> ActivePage(r.0).cursor == page.cursor)
      && (n <= 1 ==> r == (s, false))
  {
    var page := ActivePage(s);
    var n := |page.widgets|;
    assert PageOk(s, s.active.value);
    if n >= 2 && 0 <= page.cursor + delta + n < U32_MODULUS {
      CursorStepWraps(page.cursor, delta, n);
    }
  }

  /**
   * `onEvent`: an update asks for a redraw and changes nothing; a click or a
   * value change on a page without widgets, and an event of no handled type,
   * change nothing and ask for no redraw.
   */
  lemma EventCases(s: UIState, e: Events.Event)
    requires Wf(s) && s.active.Some?
    ensures Events.TypeOf(e) == Events.Update ==> EventHandled(s, e) == (s, true)
    ensures Events.TypeOf(e) in {Events.None, Events.Unnamed5, Events.Unnamed6, Events.Unnamed7} ==>
      EventHandled(s, e) == (s, false)
    ensures Events.TypeOf(e) in {Events.WidgetClick, Events.WidgetValueChange} && ActivePage(s).widgets == [] ==>
      EventHandled(s, e) == (s, false)
  {
  }

  /** The arena slot of the widget under the active page's cursor. */
  function FocusedSlot(s: UIState): (id: nat)
    requires Wf(s) && s.active.Some? && ActivePage(s).widgets != []
    ensures ActivePage(s).cursor < |ActivePage(s).widgets| && id < |s.widgets|
  {
    assert PageOk(s, s.active.value);
    ActivePage(s).widgets[ActivePage(s).cursor]
  }

  /** A click goes to the focused widget: the engine reports what its `onClick` reports. */
  lemma ClickReachesFocused(s: UIState, e: Events.Event)
    requires Wf(s) && s.active.Some? && Events.TypeOf(e) == Events.WidgetClick
    requires ActivePage(s).widgets != []
    ensures EventHandled(s, e).1 == OnClick(s.widgets[FocusedSlot(s)], FocusedSlot(s)).redraw
  {
    assert PageOk(s, s.active.value);
  }

  /** Clicking a page's navigation widget binds its page: the old page is left, the target entered, and a redraw is due. */
  lemma PageSetterClick(s: UIState, e: Events.Event, target: nat)
    requires Wf(s) && s.active.Some? && Events.TypeOf(e) == Events.WidgetClick
    requires ActivePage(s).widgets != [] && s.widgets[FocusedSlot(s)] == PageSetter(target)
    ensures var r := EventHandled(s, e);
      && r.1 && r.0.active == Some(target)
      && r.0.trace == s.trace + [PageExited(s.active.value), PageEntered(target)]
  {
    assert PageOk(s, s.active.value);
  }

  /**
   * `link`: each of two distinct pages gains, as its last widget, the
   * other's navigation widget, which leads to the other page.
   */
  lemma LinkBothWays(s: UIState, p: nat, q: nat)
    requires Wf(s) && p < |s.pages| && q < |s.pages| && p != q
    ensures var r := Linked(s, p, q);
      && r.widgets == s.widgets
      && r.pages[p].widgets == s.pages[p].widgets + [s.pages[q].toThis]
      && r.pages[q].widgets == s.pages[q].widgets + [s.pages[p].toThis]
      && s.pages[q].toThis < |s.widgets| && s.widgets[s.pages[q].toThis] == PageSetter(q)
      && s.pages[p].toThis < |s.widgets| && s.widgets[s.pages[p].toThis] == PageSetter(p)
      && r.pages[p].cursor == s.pages[p].cursor && r.pages[q].cursor == s.pages[q].cursor
  {
    assert PageOk(s, p);
    assert PageOk(s, q);
  }
  /** `bindPage`: the first binding only enters; binding the bound page again leaves and re-enters it. */
  lemma BindHooks(s: UIState, p: nat)
    requires Wf(s) && p < |s.pages|
    ensures s.active.None? ==> Bound(s, p).trace == s.trace + [PageEntered(p)]
    ensures s.active == Some(p) ==> Bound(s, p).trace == s.trace + [PageExited(p), PageEntered(p)]
    ensures s.active.Some? ==> Bound(s, p).trace[|s.trace|] == PageExited(s.active.value)
  {
  }

  /** `Page::render` draws no `prepare`; the caller brackets it. */
  lemma RenderUnprepared(s: UIState, a: nat, available: nat)
    requires Wf(s) && a < |s.pages|
    ensures Prepare !in PageRender(s, a, available)
  {
    var r := PageRender(s, a, available);
    assert forall k :: 0 <= k < |r| ==> r[k] != Prepare;
  }

  /** The cursor's widget is drawn whenever the page has widgets and there is room for one. */
  lemma RenderShowsCursor(s: UIState, a: nat, available: nat)
    requires Wf(s) && a < |s.pages| && available >= 1 && s.pages[a].widgets != []
    ensures var r := PageRender(s, a, available);
      exists k :: 1 <= k < |r| && r[k].Slot? && r[k].index == s.pages[a].cursor
  {
    var page := s.pages[a];
    assert PageOk(s, a);
    var w := Window(|page.widgets|, page.cursor, available);
    var slots := Slots(s, a, w.0, w.1);
    var r := PageRender(s, a, available);
    var k := page.cursor - w.0 + 1;
    assert r[k] == slots[page.cursor - w.0];
  }

  /** A handler's outcome only appends its calls (and the binding hooks) to the trace, and keeps every page's widget list and title. */
  lemma AppliedExtends(s: UIState, id: nat, o: Outcome)
    requires Wf(s) && s.active.Some? && id < |s.widgets|
    requires WidgetOk(o.widget) && DivisorOk(o.widget) && Target(o.widget) == Target(s.widgets[id])
    requires s.widgets[id].PageSetter? ==> o.widget == s.widgets[id]
    requires o.bind.Some? ==> o.bind == Target(s.widgets[id])
    requires Prepare !in o.calls
    ensures Extends(s, Applied(s, id, o).0) && SameShape(s, Applied(s, id, o).0)
  {
    var r := Applied(s, id, o).0;
    var s1 := s.(widgets := s.widgets[id := o.widget], trace := s.trace + o.calls);
    Grown(s.trace, o.calls);
    assert Titles(s1) == Titles(s);
    if o.bind.Some? {
      assert SlotOk(s, id);
      WidgetReplaced(s, id, o.widget, s.trace + o.calls);
      var exit := if s1.active.Some? then [PageExited(s1.active.value)] else [];
      var tail := exit + [PageEntered(o.bind.value)];
      assert r.trace == s1.trace + tail;
      Grown(s1.trace, tail);
      PrefixTransitive(s.trace, s1.trace, r.trace);
      assert Titles(r) == Titles(s1);
    }
  }

  /** Appending calls without a `prepare` extends a trace and keeps its count of `prepare`. */
  lemma Grown(t: seq<Call>, u: seq<Call>)
    requires Prepare !in u
    ensures t <= t + u && Prepares(t + u) == Prepares(t)
  {
    assert multiset(t + u) == multiset(t) + multiset(u);
  }

  /** Handling one event never draws: the trace only grows by handler and hook calls, and page contents stay. */
  lemma HandledExtends(s: UIState, e: Events.Event)
    requires Wf(s) && s.active.Some?
    ensures Extends(s, EventHandled(s, e).0) && SameShape(s, EventHandled(s, e).0)
  {
    var page := ActivePage(s);
    match Events.TypeOf(e)
    case PageCursorMove =>
      assert Titles(CursorMoved(s, Events.ValueOf(e)).0) == Titles(s);
    case WidgetClick =>
      if |page.widgets| > 0 {
        assert PageOk(s, s.active.value);
        var id := page.widgets[page.cursor];
        assert SlotOk(s, id);
        AppliedExtends(s, id, OnClick(s.widgets[id], id));
      }
    case WidgetValueChange =>
      if |page.widgets| > 0 {
        assert PageOk(s, s.active.value);
        var id := page.widgets[page.cursor];
        assert SlotOk(s, id);
        DivisorDefines(s.widgets[id], Events.ValueOf(e));
        AppliedExtends(s, id, OnValue(s.widgets[id], id, Events.ValueOf(e)));
      }
    case _ =>
  }

  /** A batch of events never draws either. */
  lemma {:induction false} DispatchedExtends(s: UIState, es: seq<Events.Event>)
    requires Wf(s) && s.active.Some?
    ensures Extends(s, Dispatched(s, es).0) && SameShape(s, Dispatched(s, es).0)
    decreases |es|
  {
    if es != [] {
      var d := Dispatched(s, es[..|es| - 1]);
      DispatchedExtends(s, es[..|es| - 1]);
      HandledExtends(d.0, es[|es| - 1]);
    }
  }

  /** Handling `a` and then `b` is handling `a + b`: the batches of successive polls continue one another. */
  lemma {:induction false} DispatchAppend(s: UIState, a: seq<Events.Event>, b: seq<Events.Event>)
    requires Wf(s) && s.active.Some?
    ensures var da := Dispatched(s, a); var db := Dispatched(da.0, b);
      Dispatched(s, a + b) == (db.0, da.1 || db.1)
    decreases |b|
  {
    if b == [] {
      assert a + b == a;
    } else {
      var b0 := b[..|b| - 1];
      DispatchAppend(s, a, b0);
      assert (a + b)[..|a + b| - 1] == a + b0;
      assert (a + b)[|a + b| - 1] == b[|b| - 1];
    }
  }

  /** `poll` without a bound page does nothing at all. */
  lemma PollWithoutPage(s: UIState, queue: seq<Events.Event>, now: U32, available: nat)
    requires Wf(s) && s.active.None?
    ensures Polled(s, queue, now, available) == (s, queue)
  {
  }

  /**
   * `poll` with a bound page takes the first `min(size, 20)` events, in
   * order, and leaves the rest queued; a queue of twenty or fewer is drained.
   */
  lemma PollTakesAtMostTwenty(s: UIState, queue: seq<Events.Event>, now: U32, available: nat)
    requires Wf(s) && s.active.Some?
    ensures var rest := Polled(s, queue, now, available).1;
      && |rest| == |queue| - Taken(|queue|)
      && rest == queue[Taken(|queue|)..]
      && (|queue| <= MaxEventsPerPoll ==> rest == [])
      && (|queue| > MaxEventsPerPoll ==> |rest| == |queue| - MaxEventsPerPoll)
  {
  }

  /** Whether the events one `poll` dispatches ask for a redraw. */
  function RedrawRequested(s: UIState, queue: seq<Events.Event>, now: U32): bool
    requires Wf(s) && s.active.Some?
  {
    queue != [] && Dispatched(Updated(s, now), queue[..Taken(|queue|)]).1
  }

  /** A redraw performs one `prepare`, ends with `finish`, and only appends to the trace. */
  lemma RedrawPreparesOnce(s: UIState, available: nat)
    requires Wf(s) && s.active.Some?
    ensures var r := Rendered(s, available);
      s.trace <= r.trace && Prepares(r.trace) == Prepares(s.trace) + 1 && r.trace[|r.trace| - 1] == Finish
  {
    var a := s.active.value;
    var page := s.pages[a];
    var drawn := PageRender(s, a, available);
    RenderUnprepared(s, a, available);
    var r := Rendered(s, available);
    assert r.trace == s.trace + ([Prepare] + drawn + [Finish]);
    assert multiset(r.trace) == multiset(s.trace) + multiset([Prepare]) + multiset(drawn) + multiset([Finish]);
  }

  /** Whatever else it does, `poll` on a bound page first runs that page's update hook, and only appends to the trace. */
  lemma PollUpdatesFirst(s: UIState, queue: seq<Events.Event>, now: U32, available: nat)
    requires Wf(s) && s.active.Some?
    ensures s.trace + [PageUpdated(s.active.value, now)] <= Polled(s, queue, now, available).0.trace
  {
    var s1 := Updated(s, now);
    assert s1.trace == s.trace + [PageUpdated(s.active.value, now)];
    if queue != [] {
      var d := Dispatched(s1, queue[..Taken(|queue|)]);
      DispatchedExtends(s1, queue[..Taken(|queue|)]);
      if d.1 {
        RedrawPreparesOnce(d.0, available);
        PrefixTransitive(s1.trace, d.0.trace, Rendered(d.0, available).trace);
      }
    }
  }

  lemma PrefixTransitive(a: seq<Call>, b: seq<Call>, c: seq<Call>)
    requires a <= b && b <= c
    ensures a <= c
  {
    assert b[..|a|] == a;
    assert c[..|b|][..|a|] == c[..|a|];
  }


  /**
   * `poll` with a bound page performs exactly one `prepare`, and ends with
   * `finish`, if some dispatched event asked for a redraw, and performs no
   * `prepare` otherwise.
   */
  lemma PollRendersOnce(s: UIState, queue: seq<Events.Event>, now: U32, available: nat)
    requires Wf(s) && s.active.Some?
    ensures var r := Polled(s, queue, now, available).0;
      && (RedrawRequested(s, queue, now) ==>
            Prepares(r.trace) == Prepares(s.trace) + 1 && r.trace[|r.trace| - 1] == Finish)
      && (!RedrawRequested(s, queue, now) ==> Prepares(r.trace) == Prepares(s.trace))
  {
    var s1 := Updated(s, now);
    assert Prepares(s1.trace) == Prepares(s.trace) by {
      assert s1.trace == s.trace + [PageUpdated(s.active.value, now)];
      assert multiset(s1.trace) == multiset(s.trace) + multiset([PageUpdated(s.active.value, now)]);
    }
    if queue != [] {
      var d := Dispatched(s1, queue[..Taken(|queue|)]);
      DispatchedExtends(s1, queue[..Taken(|queue|)]);
      if d.1 {
        RedrawPreparesOnce(d.0, available);
      }
    }
  }

}
