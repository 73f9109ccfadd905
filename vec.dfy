/** Two-dimensional vectors. The C code uses single-precision floats; the model uses
    exact reals. The modelled code only compares coordinates or hands them to
    functions outside the model, so the model agrees with the C for finite
    coordinates; it has no NaN or infinity, and constants such as `1.0 / 60.0` are
    exact here where the C rounds them. */
module Vec {
  datatype V2 = V2(x: real, y: real)

  /** The zero vector (`mlV2Zerof()`). */
  const Zero: V2 := V2(0.0, 0.0)
}
