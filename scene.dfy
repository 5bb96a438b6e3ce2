/** `scene` (include/irg/scene.hpp, src/irg/scene.cpp): the ordered objects of a
    3D scene, each with a visibility flag. Objects are opaque here (type `T`);
    the matrices and GL calls of `draw` are not part of this model, which keeps of
    `draw` only which objects it draws and in which order. */
module Scene {

  /** `displayed` with entry i flipped. */
  function Toggled(d: seq<bool>, i: nat): (r: seq<bool>)
    requires i < |d|
    ensures |r| == |d| && r[i] == !d[i]
    ensures forall j :: 0 <= j < |d| && j != i ==> r[j] == d[j]
  {
    d[i := !d[i]]
  }

  /** Toggling an entry twice restores the flags. */
  lemma ToggleTwice(d: seq<bool>, i: nat)
    requires i < |d|
    ensures Toggled(Toggled(d, i), i) == d
  {
  }

  /** The indices of the displayed objects, ascending: what `draw` draws. */
  function Visible(d: seq<bool>): (r: seq<nat>)
    decreases |d|
  {
    if d == [] then []
    else if d[|d| - 1] then Visible(d[..|d| - 1]) + [|d| - 1]
    else Visible(d[..|d| - 1])
  }

  /** `draw` draws each displayed object once, in ascending order, and no other. */
  lemma {:induction false} VisibleExactly(d: seq<bool>)
    ensures forall k :: 0 <= k < |Visible(d)| ==> Visible(d)[k] < |d| && d[Visible(d)[k]]
    ensures forall k, l :: 0 <= k < l < |Visible(d)| ==> Visible(d)[k] < Visible(d)[l]
    ensures forall i :: 0 <= i < |d| && d[i] ==> i in Visible(d)
    decreases |d|
  {
    if d != [] {
      VisibleExactly(d[..|d| - 1]);
    }
  }

  class Scene<T> {
    var objects: seq<T>
    var displayed: seq<bool>

    /** One flag per object. */
    ghost predicate Valid()
      reads this
    {
      |objects| == |displayed|
    }

    constructor ()
      ensures Valid() && objects == [] && displayed == []
    {
      objects, displayed := [], [];
    }

    /** `push_back`: appends the object, displayed, and returns its index (the old
        size); nothing before it changes. */
    method PushBack(obj: T) returns (idx: nat)
      requires Valid()
      modifies this
      ensures Valid()
      ensures objects == old(objects) + [obj] && displayed == old(displayed) + [true]
      ensures idx == old(|objects|) && objects[idx] == obj
    {
      objects := objects + [obj];
      displayed := displayed + [true];
      idx := |objects| - 1;
    }

    /** `operator[]`. */
    method Get(idx: nat) returns (obj: T)
      requires idx < |objects|
      ensures obj == objects[idx]
    {
      obj := objects[idx];
    }

    /** `toggle_visibility`: flips one flag and nothing else. */
    method ToggleVisibility(idx: nat)
      requires Valid() && idx < |displayed|
      modifies this`displayed
      ensures Valid() && displayed == Toggled(old(displayed), idx)
    {
      displayed := displayed[idx := !displayed[idx]];
    }

    /** The loop of `draw`: the objects it draws, in the order it draws them. */
    method Draw() returns (drawn: seq<nat>)
      requires Valid()
      ensures drawn == Visible(displayed)
      ensures forall k :: 0 <= k < |drawn| ==> drawn[k] < |objects| && displayed[drawn[k]]
    {
      drawn := [];
      for i := 0 to |objects|
        invariant drawn == Visible(displayed[..i])
      {
        assert displayed[..i + 1][..i] == displayed[..i];
        if displayed[i] {
          drawn := drawn + [i];
        }
      }
      assert displayed[..|objects|] == displayed;
      VisibleExactly(displayed);
    }
  }
}
