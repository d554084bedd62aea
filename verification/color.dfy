/** The tri-colour pixel value of src/color.rs. */
module Colors {

  /** There is no fourth value: the driver never produces the (0, 0) bit pair. */
  datatype Color = Black | White | Red
}
