/** The mouse event sources (src/irg/mouse.cpp, include/irg/mouse.hpp): the raw
    move/click source and the drag-gesture tracker that turns left-button clicks and
    moves into started / moved / finalized events for one gesture at a time.
    Cursor positions and window sizes, which the source asks GLFW for, are
    parameters here. */
module Mouse {
  import opened Primitive
  import opened ObModel
  import Glfw

  /** `safe_invoke` on a handler that returns an action: an empty `std::function`
      yields the value-initialised action. */
  function SafeInvoke<W, A>(h: Option<(W, A) -> (W, Action)>, w: W, a: A): (r: (W, Action))
    ensures h.None? ==> r.0 == w && r.1 == ValueInitialised()
    ensures h.Some? ==> r == h.value(w, a)
  {
    match h
    case Some(f) => f(w, a)
    case None => (w, Remain)
  }

  /** `safe_invoke` on a handler that returns nothing: an empty one does nothing. */
  function SafeNotify<W, A>(h: Option<(W, A) -> W>, w: W, a: A): (r: W)
    ensures h.None? ==> r == w
    ensures h.Some? ==> r == h.value(w, a)
  {
    match h
    case Some(f) => f(w, a)
    case None => w
  }

  /** An absent `finalized` handler never detaches. */
  lemma AbsentHandlerRemains<W, A>(w: W, a: A)
    ensures SafeInvoke(None, w, a) == (w, Remain)
  {
  }

  // ---------------------------------------------------------------------------
  // simple_mouse_events

  /** `simple_mouse_event_listener`: optional click and move handlers. */
  datatype SimpleListener<!W> = SimpleListener(
    clicked: Option<(W, Point) -> (W, Action)>,
    moved: Option<(W, Point) -> (W, Action)>)

  function OnClicked<W>(p: Point): (W, SimpleListener<W>) -> (W, Action) {
    (w: W, l: SimpleListener<W>) => SafeInvoke(l.clicked, w, p)
  }

  function OnMovedTo<W>(p: Point): (W, SimpleListener<W>) -> (W, Action) {
    (w: W, l: SimpleListener<W>) => SafeInvoke(l.moved, w, p)
  }

  /** `simple_mouse_events::move_callback`: nothing at all without listeners;
      otherwise the normalised cursor is dispatched to every `moved` handler and
      the detaching listeners are erased. */
  method SimpleMoveCallback<W>(events: Observer<SimpleListener<W>>, cursor: Point, size: Point, w0: W)
    returns (w: W, actions: seq<Action>)
    requires events.listeners != [] ==> ValidDim(size)
    modifies events
    ensures old(events.listeners) == [] ==> w == w0 && actions == [] && events.listeners == []
    ensures old(events.listeners) != [] ==>
              Run(w0, old(events.listeners), OnMovedTo(Normalize(cursor, size)))
                == Outcome(w, actions, events.listeners)
  {
    if events.listeners == [] {
      return w0, [];
    }
    var p := Normalize(cursor, size);
    w, actions := events.Dispatch(w0, OnMovedTo(p));
  }

  /** `simple_mouse_events::click_callback`: only a left-button press reaches the
      listeners, and only when there are some. */
  method SimpleClickCallback<W>(events: Observer<SimpleListener<W>>, button: int, kind: int,
                                cursor: Point, size: Point, w0: W)
    returns (w: W, actions: seq<Action>)
    requires button == Glfw.MouseButtonLeft && kind == Glfw.Press && events.listeners != [] ==> ValidDim(size)
    modifies events
    ensures button != Glfw.MouseButtonLeft || kind != Glfw.Press || old(events.listeners) == [] ==>
              w == w0 && actions == [] && events.listeners == old(events.listeners)
    ensures button == Glfw.MouseButtonLeft && kind == Glfw.Press && old(events.listeners) != [] ==>
              Run(w0, old(events.listeners), OnClicked(Normalize(cursor, size)))
                == Outcome(w, actions, events.listeners)
  {
    if button != Glfw.MouseButtonLeft || kind != Glfw.Press || events.listeners == [] {
      return w0, [];
    }
    var p := Normalize(cursor, size);
    w, actions := events.Dispatch(w0, OnClicked(p));
  }

  // ---------------------------------------------------------------------------
  // mouse_events: the drag-gesture tracker

  /** `mouse_event_listener`: optional started / moved / finalized handlers. */
  datatype DragListener<!W> = DragListener(
    started: Option<(W, Point) -> W>,
    moved: Option<(W, LineSegment) -> W>,
    finalized: Option<(W, LineSegment) -> (W, Action)>)

  function OnStarted<W>(p: Point): (W, DragListener<W>) -> W {
    (w: W, l: DragListener<W>) => SafeNotify(l.started, w, p)
  }

  function OnMoved<W>(ls: LineSegment): (W, DragListener<W>) -> W {
    (w: W, l: DragListener<W>) => SafeNotify(l.moved, w, ls)
  }

  function OnFinalized<W>(ls: LineSegment): (W, DragListener<W>) -> (W, Action) {
    (w: W, l: DragListener<W>) => SafeInvoke(l.finalized, w, ls)
  }

  /** The all-zero segment a global `line_segment` starts as. */
  const ZeroSegment := LineSegment(Point(0.0, 0.0), Point(0.0, 0.0))

  /** `mouse_events`: the process-wide tracker `m_events`, its registry and the
      segment of the gesture in progress. */
  class MouseEvents<!W> {
    const registry: Observer<DragListener<W>>
    var tracking: bool
    var ls: LineSegment

    /** A zero-initialised global: idle, with the all-zero segment. */
    constructor ()
      ensures fresh(registry) && registry.listeners == []
      ensures !tracking && ls == ZeroSegment
    {
      registry := new Observer();
      tracking := false;
      ls := ZeroSegment;
    }

    method AddListener(l: DragListener<W>)
      modifies registry
      ensures registry.listeners == old(registry.listeners) + [l]
    {
      registry.AddListener(l);
    }

    /** `mouse_events::move_callback`: ignored while idle; while tracking, the
        cursor becomes the segment's end and every `moved` handler sees the
        segment; nobody is erased. */
    method MoveCallback(cursor: Point, size: Point, w0: W) returns (w: W)
      requires tracking ==> ValidDim(size)
      modifies this
      ensures tracking == old(tracking)
      ensures !tracking ==> w == w0 && ls == old(ls)
      ensures tracking ==> ls == LineSegment(old(ls).start, Normalize(cursor, size))
      ensures tracking ==> w == Broadcast(w0, registry.listeners, OnMoved(ls))
    {
      if !tracking {
        return w0;
      }
      ls := ls.(end := Normalize(cursor, size));
      w := registry.Notify(w0, OnMoved(ls));
    }

    /** `mouse_events::click_callback`. Only a left-button press counts. While
        idle it starts a gesture at the click: the segment's start moves there (its
        end stays), every `started` handler runs and tracking begins. While
        tracking it ends a leg: the click becomes the segment's end and `finalized`
        is dispatched with erasure; if nobody detached the end becomes the start of
        the next leg, otherwise the tracker goes idle. */
    method ClickCallback(button: int, kind: int, cursor: Point, size: Point, w0: W)
      returns (w: W, actions: seq<Action>)
      requires button == Glfw.MouseButtonLeft && kind == Glfw.Press ==> ValidDim(size)
      modifies this, registry
      ensures button != Glfw.MouseButtonLeft || kind != Glfw.Press ==>
                w == w0 && actions == [] && tracking == old(tracking) && ls == old(ls)
                && registry.listeners == old(registry.listeners)
      ensures button == Glfw.MouseButtonLeft && kind == Glfw.Press && !old(tracking) ==>
                && ls == old(ls).(start := Normalize(cursor, size))
                && tracking && actions == []
                && w == Broadcast(w0, registry.listeners, OnStarted(Normalize(cursor, size)))
                && registry.listeners == old(registry.listeners)
      ensures button == Glfw.MouseButtonLeft && kind == Glfw.Press && old(tracking) ==>
                var leg := old(ls).(end := Normalize(cursor, size));
                && Run(w0, old(registry.listeners), OnFinalized(leg))
                     == Outcome(w, actions, registry.listeners)
                && (Detach in actions ==> !tracking && ls == leg)
                && (Detach !in actions ==> tracking && ls == LineSegment(leg.end, leg.end))
    {
      if button != Glfw.MouseButtonLeft || kind != Glfw.Press {
        return w0, [];
      }
      var p := Normalize(cursor, size);
      if !tracking {
        ls := ls.(start := p);
        w := registry.Notify(w0, OnStarted(p));
        actions := [];
        tracking := true;
      } else {
        ls := ls.(end := p);
        w, actions := registry.Dispatch(w0, OnFinalized(ls));
        var detached := Detach in actions;
        if !detached {
          ls := ls.(start := ls.end);
        } else {
          tracking := false;
        }
      }
    }
  }
}
