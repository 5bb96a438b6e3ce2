/** The keyboard event source (03/src/irg/keyboard.cpp): platform key callbacks
    dispatched to the registered key listeners. */
module Keyboard {
  import opened ObModel
  import Glfw

  /** `keyboard_event_type::on_press`: a listener acting on the world it captured,
      given the key and whether it was released. */
  type KeyListener<!W> = (W, int, bool) -> (W, Action)

  /** The argument the source passes as `released`. */
  function Released(action: int): bool {
    action == Glfw.Release
  }

  /** Invoking a key listener with one event. */
  function OnKey<W>(key: int, released: bool): (W, KeyListener<W>) -> (W, Action) {
    (w: W, l: KeyListener<W>) => l(w, key, released)
  }

  /** `keyboard_events::callback`: repeat and every other action than press and
      release is dropped; otherwise every listener is invoked once, in order, with
      (key, action == RELEASE), and those voting `Detach` are erased. */
  method Callback<W>(events: Observer<KeyListener<W>>, key: int, action: int, w0: W)
    returns (w: W, actions: seq<Action>)
    modifies events
    ensures action != Glfw.Press && action != Glfw.Release ==>
              w == w0 && actions == [] && events.listeners == old(events.listeners)
    ensures action == Glfw.Press || action == Glfw.Release ==>
              Run(w0, old(events.listeners), OnKey(key, Released(action)))
                == Outcome(w, actions, events.listeners)
  {
    if action != Glfw.Press && action != Glfw.Release {
      return w0, [];
    }
    var released := Released(action);
    w, actions := events.Dispatch(w0, OnKey(key, released));
  }
}
