/** The camera key-mask controller `standard_camera_controler`
    (src/irg/camera.cpp:40-71): a key listener that, for as
    long as a key is held, adds a unit to one component of one of the camera's
    masks. The orbit and zoom arithmetic that reads the masks is not part of this
    model. */
module Camera {
  import opened ObModel
  import opened Primitive
  import Glfw

  datatype Vec2 = Vec2(x: real, y: real)

  /** The three masks the controller moves. */
  datatype Masks = Masks(position: Vec2, target: Vec2, zoom: Vec2)

  datatype Which = Position | Target | Zoom

  /** Which mask component a key drives and in which direction, if any:
      A/D the second and W/S the first position component, I/O the first and
      J/K the second zoom component, LEFT/RIGHT the second and UP/DOWN the first
      target component; the first key of each pair adds 1, the second -1. */
  datatype Binding = Binding(which: Which, second: bool, amount: real)

  function BindingOf(key: int): (b: Option<Binding>)
    ensures b.Some? ==> b.value.amount == 1.0 || b.value.amount == -1.0
    ensures b.Some? <==> key in {Glfw.KeyA, Glfw.KeyD, Glfw.KeyW, Glfw.KeyS, Glfw.KeyI, Glfw.KeyO,
                                 Glfw.KeyLeft, Glfw.KeyRight, Glfw.KeyUp, Glfw.KeyDown, Glfw.KeyJ, Glfw.KeyK}
    ensures key == Glfw.KeyA ==> b == Some(Binding(Position, true, 1.0))
    ensures key == Glfw.KeyD ==> b == Some(Binding(Position, true, -1.0))
    ensures key == Glfw.KeyW ==> b == Some(Binding(Position, false, 1.0))
    ensures key == Glfw.KeyS ==> b == Some(Binding(Position, false, -1.0))
    ensures key == Glfw.KeyI ==> b == Some(Binding(Zoom, false, 1.0))
    ensures key == Glfw.KeyO ==> b == Some(Binding(Zoom, false, -1.0))
    ensures key == Glfw.KeyLeft ==> b == Some(Binding(Target, true, 1.0))
    ensures key == Glfw.KeyRight ==> b == Some(Binding(Target, true, -1.0))
    ensures key == Glfw.KeyUp ==> b == Some(Binding(Target, false, 1.0))
    ensures key == Glfw.KeyDown ==> b == Some(Binding(Target, false, -1.0))
    ensures key == Glfw.KeyJ ==> b == Some(Binding(Zoom, true, 1.0))
    ensures key == Glfw.KeyK ==> b == Some(Binding(Zoom, true, -1.0))
  {
    if key == Glfw.KeyA then Some(Binding(Position, true, 1.0))
    else if key == Glfw.KeyD then Some(Binding(Position, true, -1.0))
    else if key == Glfw.KeyW then Some(Binding(Position, false, 1.0))
    else if key == Glfw.KeyS then Some(Binding(Position, false, -1.0))
    else if key == Glfw.KeyI then Some(Binding(Zoom, false, 1.0))
    else if key == Glfw.KeyO then Some(Binding(Zoom, false, -1.0))
    else if key == Glfw.KeyLeft then Some(Binding(Target, true, 1.0))
    else if key == Glfw.KeyRight then Some(Binding(Target, true, -1.0))
    else if key == Glfw.KeyUp then Some(Binding(Target, false, 1.0))
    else if key == Glfw.KeyDown then Some(Binding(Target, false, -1.0))
    else if key == Glfw.KeyJ then Some(Binding(Zoom, true, 1.0))
    else if key == Glfw.KeyK then Some(Binding(Zoom, true, -1.0))
    else None
  }

  /** Adds `d` to one component of a vector. */
  function Bump(v: Vec2, second: bool, d: real): Vec2 {
    if second then v.(y := v.y + d) else v.(x := v.x + d)
  }

  /** Adds `d` to the component `b` names. */
  function Apply(m: Masks, b: Binding, d: real): Masks {
    match b.which
    case Position => m.(position := Bump(m.position, b.second, d))
    case Target => m.(target := Bump(m.target, b.second, d))
    case Zoom => m.(zoom := Bump(m.zoom, b.second, d))
  }

  /** The controller's effect on the masks: a press adds the key's amount, a
      release (`adjust`) subtracts it; an unbound key changes nothing. */
  function Control(m: Masks, key: int, released: bool): (r: Masks)
    ensures BindingOf(key).None? ==> r == m
  {
    match BindingOf(key)
    case None => m
    case Some(b) => Apply(m, b, if released then -b.amount else b.amount)
  }

  /** The six mask components in a fixed order, to say "exactly one changed". */
  function Components(m: Masks): seq<real> {
    [m.position.x, m.position.y, m.target.x, m.target.y, m.zoom.x, m.zoom.y]
  }

  /** The place of a binding's component in `Components`. */
  function Slot(b: Binding): (k: nat)
    ensures k < 6
  {
    (match b.which case Position => 0 case Target => 2 case Zoom => 4) + (if b.second then 1 else 0)
  }

  /** A press of a bound key adds its ±1 to exactly one component and leaves the
      five others alone; its release subtracts the same amount. */
  lemma ControlMovesOneComponent(m: Masks, key: int, released: bool)
    requires BindingOf(key).Some?
    ensures var b := BindingOf(key).value;
            var before, after := Components(m), Components(Control(m, key, released));
            && |after| == 6
            && after[Slot(b)] == before[Slot(b)] + (if released then -b.amount else b.amount)
            && forall k :: 0 <= k < 6 && k != Slot(b) ==> after[k] == before[k]
  {
  }

  /** A press followed by the release of the same key restores every mask, and so
      does a release followed by a press. */
  lemma PressReleaseRestores(m: Masks, key: int)
    ensures Control(Control(m, key, false), key, true) == m
    ensures Control(Control(m, key, true), key, false) == m
  {
    match BindingOf(key)
    case None =>
    case Some(b) =>
      assert Apply(Apply(m, b, b.amount), b, -b.amount) == m;
      assert Apply(Apply(m, b, -b.amount), b, b.amount) == m;
  }

  /** The controller as the key listener it is registered as: it changes the masks
      and always votes `Remain`. */
  function Controller(m: Masks, key: int, released: bool): (r: (Masks, Action))
    ensures r.1 == Remain
  {
    (Control(m, key, released), Remain)
  }

  /** The camera's masks; positions, targets and sensitivities are not read by the
      controller. */
  class Camera {
    var positionMask: Vec2
    var targetMask: Vec2
    var zoomMask: Vec2

    function MaskState(): Masks
      reads this
    {
      Masks(positionMask, targetMask, zoomMask)
    }

    /** All masks start at zero. */
    constructor ()
      ensures MaskState() == Masks(Vec2(0.0, 0.0), Vec2(0.0, 0.0), Vec2(0.0, 0.0))
    {
      positionMask, targetMask, zoomMask := Vec2(0.0, 0.0), Vec2(0.0, 0.0), Vec2(0.0, 0.0);
    }

    /** The lambda `standard_camera_controler(camera)` returns, invoked with one key
        event. */
    method OnKey(key: int, released: bool) returns (a: Action)
      modifies this
      ensures (MaskState(), a) == Controller(old(MaskState()), key, released)
    {
      var n := if released then -1.0 else 1.0;
      if key == Glfw.KeyA {
        positionMask := positionMask.(y := positionMask.y + n);
      } else if key == Glfw.KeyD {
        positionMask := positionMask.(y := positionMask.y - n);
      } else if key == Glfw.KeyW {
        positionMask := positionMask.(x := positionMask.x + n);
      } else if key == Glfw.KeyS {
        positionMask := positionMask.(x := positionMask.x - n);
      } else if key == Glfw.KeyI {
        zoomMask := zoomMask.(x := zoomMask.x + n);
      } else if key == Glfw.KeyO {
        zoomMask := zoomMask.(x := zoomMask.x - n);
      } else if key == Glfw.KeyLeft {
        targetMask := targetMask.(y := targetMask.y + n);
      } else if key == Glfw.KeyRight {
        targetMask := targetMask.(y := targetMask.y - n);
      } else if key == Glfw.KeyUp {
        targetMask := targetMask.(x := targetMask.x + n);
      } else if key == Glfw.KeyDown {
        targetMask := targetMask.(x := targetMask.x - n);
      } else if key == Glfw.KeyJ {
        zoomMask := zoomMask.(y := zoomMask.y + n);
      } else if key == Glfw.KeyK {
        zoomMask := zoomMask.(y := zoomMask.y - n);
      }
      a := Remain;
    }
  }
}
