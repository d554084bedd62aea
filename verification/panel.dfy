/** Panel geometry declared in src/display.rs: dimensions, rotation and the controller's limits. */
module Panel {
  import opened Base

  /** The maximum number of rows (gate outputs) the controller drives. */
  const MAX_GATE_OUTPUTS: Word := 296

  /** The maximum number of columns (source outputs) the controller drives. */
  const MAX_SOURCE_OUTPUTS: Byte := 160

  datatype Dimensions = Dimensions(rows: Word, cols: Byte)

  /** Physical rotation relative to the native orientation. */
  datatype Rotation = Rotate0 | Rotate90 | Rotate180 | Rotate270

  /** `Rotation::default()`. */
  function DefaultRotation(): (r: Rotation)
    ensures r == Rotate0
  {
    Rotate0
  }

  /** What `Builder::dimensions` asserts before accepting dimensions. */
  predicate ValidDimensions(d: Dimensions) {
    d.cols % 8 == 0 && d.rows <= MAX_GATE_OUTPUTS && d.cols <= MAX_SOURCE_OUTPUTS
  }
}
