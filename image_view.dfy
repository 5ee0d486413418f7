/**
 * The lazy image-view abstraction the modelled views wrap. Views are defined
 * outside the modelled files; all that is used of one here is its dimensions
 * and its pixel at a (col, row, plane) coordinate.
 */
module ImageView {
  datatype View<P> = View(cols: int, rows: int, planes: int, pixel: (int, int, int) -> P)

  /** A coordinate that lies inside the view. */
  predicate InBounds<P>(v: View<P>, col: int, row: int, plane: int) {
    0 <= col < v.cols && 0 <= row < v.rows && 0 <= plane < v.planes
  }
}
