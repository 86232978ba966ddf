/** The fixed configuration of the renderer: screen and map sizes, field of
    view, rendering depth and the ray-march step. They are globals and locals
    of CommandLineRayCaster.cpp that the program never changes. */
module Config {
  /** Console screen size: columns and rows. */
  const ScreenWidth: nat := 120
  const ScreenHeight: nat := 40

  /** World dimensions, in cells. */
  const MapWidth: nat := 16
  const MapHeight: nat := 16

  /** Field of view (an approximation of pi/4), maximum rendering distance
      and walking speed. */
  const FOV: real := 3.14159 / 4.0
  const Depth: real := 16.0
  const Speed: real := 5.0

  /** Distance the ray advances per sample. */
  const StepSize: real := 0.1

  /** A corner ray closer than this angle (radians) marks a tile boundary. */
  const BoundAngle: real := 0.01

  /** Number of samples after which the march has reached `Depth`:
      `MaxSteps * StepSize == Depth` exactly. */
  const MaxSteps: nat := 160

  /** Player start position and heading. */
  const StartX: real := 14.7
  const StartY: real := 5.09
  const StartA: real := 0.0
}
