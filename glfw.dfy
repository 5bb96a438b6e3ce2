/** The GLFW constants the event sources and listeners compare against (the values
    glfw3.h defines). GLFW itself is not part of this model. */
module Glfw {
  const Release: int := 0
  const Press: int := 1
  const Repeat: int := 2

  const MouseButtonLeft: int := 0

  const KeyA: int := 65
  const KeyB: int := 66
  const KeyD: int := 68
  const KeyF: int := 70
  const KeyG: int := 71
  const KeyI: int := 73
  const KeyJ: int := 74
  const KeyK: int := 75
  const KeyO: int := 79
  const KeyR: int := 82
  const KeyS: int := 83
  const KeyW: int := 87
  const KeyRight: int := 262
  const KeyLeft: int := 263
  const KeyDown: int := 264
  const KeyUp: int := 265
}
