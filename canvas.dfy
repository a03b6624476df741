/** What the renderer takes from the 2D drawing context without modelling it. */
module Canvas {

  /** ctx.measureText(s).width under the unjittered font: an uninterpreted,
      caller-supplied function. */
  type Measure = string -> real

  /** The fixed padding, in pixels, on the left, on the right and at the top. */
  const Margin: int := 40
}
