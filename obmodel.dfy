/** The listener registry every event source is built on (03/include/irg/obmodel.hpp)
    and the erase-while-iterating dispatch loop that the keyboard, window and mouse
    sources each run over it (03/src/irg/keyboard.cpp, 03/src/irg/window.cpp,
    src/irg/mouse.cpp).

    A listener is a closure; what it does when invoked is a step that takes the state
    it acts on (a "world" value threaded through the listeners in order) to a new
    state and a vote. */
module ObModel {

  /** `ob::action`: a listener's vote. `Remain` is enumerator 0, `Detach` enumerator 1. */
  datatype Action = Remain | Detach

  /** The enumerator's underlying value. */
  function Underlying(a: Action): (n: nat)
    ensures n < 2
    ensures (n == 0) <==> a == Remain
  {
    if a == Remain then 0 else 1
  }

  /** The value-initialised `ob::action{}` is the enumerator whose value is 0. */
  function ValueInitialised(): (a: Action)
    ensures Underlying(a) == 0
  {
    Remain
  }

  /** Everything one dispatch pass produces: the final world, each listener's vote
      in invocation order, and the listeners that are still registered. */
  datatype Outcome<W, L> = Outcome(world: W, actions: seq<Action>, kept: seq<L>)

  /** One dispatch pass over `ls`, starting from world `w`: every listener is invoked
      once, in registration order, on the world its predecessors left; the ones that
      vote `Detach` drop out and the rest keep their order. */
  function Run<W, L>(w: W, ls: seq<L>, step: (W, L) -> (W, Action)): Outcome<W, L>
    decreases |ls|
  {
    if ls == [] then Outcome(w, [], [])
    else
      var o := Run(w, ls[..|ls| - 1], step);
      var r := step(o.world, ls[|ls| - 1]);
      Outcome(r.0, o.actions + [r.1],
              if r.1 == Detach then o.kept else o.kept + [ls[|ls| - 1]])
  }

  /** The positions, in increasing order, of the listeners that voted `Remain`. */
  function RemainIndices(actions: seq<Action>): (r: seq<nat>)
    ensures forall j :: 0 <= j < |r| ==> r[j] < |actions| && actions[r[j]] == Remain
    ensures forall i, j :: 0 <= i < j < |r| ==> r[i] < r[j]
    ensures forall i :: 0 <= i < |actions| && actions[i] == Remain ==> i in r
    decreases |actions|
  {
    if actions == [] then []
    else
      var r := RemainIndices(actions[..|actions| - 1]);
      if actions[|actions| - 1] == Remain then r + [|actions| - 1] else r
  }

  /** One vote per listener, and the survivors are exactly the listeners at the
      `Remain` positions, in their original order: removing one listener neither
      skips nor repeats the next. */
  lemma {:induction false} RunKeepsRemaining<W, L>(w: W, ls: seq<L>, step: (W, L) -> (W, Action))
    ensures |Run(w, ls, step).actions| == |ls|
    ensures |Run(w, ls, step).kept| == |RemainIndices(Run(w, ls, step).actions)|
    ensures forall j :: 0 <= j < |Run(w, ls, step).kept| ==>
              Run(w, ls, step).kept[j] == ls[RemainIndices(Run(w, ls, step).actions)[j]]
    decreases |ls|
  {
    if ls != [] {
      var init := ls[..|ls| - 1];
      RunKeepsRemaining(w, init, step);
      var o := Run(w, init, step);
      var acts := Run(w, ls, step).actions;
      assert acts[..|acts| - 1] == o.actions;
    }
  }

  /** A pass in which every listener votes `Remain` leaves the registry as it was. */
  lemma {:induction false} AllRemainKeepsAll<W, L>(w: W, ls: seq<L>, step: (W, L) -> (W, Action))
    requires forall a :: a in Run(w, ls, step).actions ==> a == Remain
    ensures Run(w, ls, step).kept == ls
    decreases |ls|
  {
    if ls != [] {
      var init := ls[..|ls| - 1];
      var o := Run(w, init, step);
      var acts := Run(w, ls, step).actions;
      var last := step(o.world, ls[|ls| - 1]).1;
      assert acts == o.actions + [last];
      assert last in acts;
      assert forall a :: a in o.actions ==> a in acts;
      AllRemainKeepsAll(w, init, step);
      assert init + [ls[|ls| - 1]] == ls;
    }
  }

  /** Notifying every listener in order without votes (the handlers that return
      nothing): the world each listener leaves is the next one's input. */
  function Broadcast<W, L>(w: W, ls: seq<L>, step: (W, L) -> W): W
    decreases |ls|
  {
    if ls == [] then w else step(Broadcast(w, ls[..|ls| - 1], step), ls[|ls| - 1])
  }

  /** `ob::observer<Listener>`: an ordered registry of listeners. */
  class Observer<L> {
    var listeners: seq<L>

    /** A new registry has no listeners. */
    constructor ()
      ensures listeners == []
    {
      listeners := [];
    }

    /** `add_listener`: appends `l` after every listener already registered. */
    method AddListener(l: L)
      modifies this
      ensures listeners == old(listeners) + [l]
    {
      listeners := listeners + [l];
    }

    /** The loop each source runs: invoke the listener under the iterator; on
        `Detach` erase it (the iterator then stands on its successor), otherwise
        advance. */
    method Dispatch<W>(w0: W, step: (W, L) -> (W, Action)) returns (w: W, actions: seq<Action>)
      modifies this
      ensures Run(w0, old(listeners), step) == Outcome(w, actions, listeners)
    {
      ghost var original := listeners;
      ghost var k := 0;
      var i := 0;
      w, actions := w0, [];
      while i < |listeners|
        invariant 0 <= i <= |listeners| && 0 <= k <= |original|
        invariant listeners[i..] == original[k..]
        invariant Run(w0, original[..k], step) == Outcome(w, actions, listeners[..i])
        decreases |listeners| - i
      {
        assert original[..k + 1][..k] == original[..k];
        assert original[k] == listeners[i];
        var r := step(w, listeners[i]);
        w, actions := r.0, actions + [r.1];
        if r.1 == Detach {
          listeners := listeners[..i] + listeners[i + 1..];
        } else {
          i := i + 1;
        }
        k := k + 1;
      }
      assert original[..k] == original;
      assert listeners[..i] == listeners;
    }

    /** A range-for over the listeners whose handler returns nothing: the registry
        is not changed. */
    method Notify<W>(w0: W, step: (W, L) -> W) returns (w: W)
      ensures w == Broadcast(w0, listeners, step)
    {
      w := w0;
      for i := 0 to |listeners|
        invariant w == Broadcast(w0, listeners[..i], step)
      {
        assert listeners[..i + 1][..i] == listeners[..i];
        w := step(w, listeners[i]);
      }
      assert listeners[..|listeners|] == listeners;
    }
  }
}
