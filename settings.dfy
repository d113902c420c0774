/** The program's configuration constants. Their values live in a settings
    module that is not part of this model, so they are left unspecified
    here, constrained only by the signs the rest of the program relies on. */
module Settings {
  import opened Machine

  type PositiveReal = x: real | x > 0.0 witness 1.0
  type Dimension = n: u32 | n > 0 witness 1

  /** Canvas size in pixels. */
  const WIDTH: Dimension
  const HEIGHT: Dimension

  /** Pan distance in screen pixels for one arrow key press. */
  const STEP_SIZE: PositiveReal

  /** Zoom multiplier for one zoom key press. */
  const ZOOM_STEP_SIZE: PositiveReal

  /** Which escape function to draw with: "CIRCLE" or anything else. */
  const FUNCTION: string
}
