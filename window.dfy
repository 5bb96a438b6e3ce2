/** The window resize event source (03/src/irg/window.cpp). */
module Window {
  import opened ObModel

  /** `window_event_types::on_size_change`. */
  type SizeListener<!W> = (W, int, int) -> (W, Action)

  function OnResize<W>(width: int, height: int): (W, SizeListener<W>) -> (W, Action) {
    (w: W, l: SizeListener<W>) => l(w, width, height)
  }

  /** `window_events::buffer_size_callback`: every resize is dispatched, unfiltered,
      to every listener once, in order, and those voting `Detach` are erased. */
  method BufferSizeCallback<W>(events: Observer<SizeListener<W>>, width: int, height: int, w0: W)
    returns (w: W, actions: seq<Action>)
    modifies events
    ensures Run(w0, old(events.listeners), OnResize(width, height))
              == Outcome(w, actions, events.listeners)
  {
    w, actions := events.Dispatch(w0, OnResize(width, height));
  }
}
