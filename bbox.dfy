/**
 * Integer bounding boxes (vw::BBox2i): a min corner and a max corner, with
 * width and height the differences of the corners.
 */
module BBox {
  datatype BBox2i = BBox2i(minX: int, minY: int, maxX: int, maxY: int)

  function Width(b: BBox2i): int { b.maxX - b.minX }

  function Height(b: BBox2i): int { b.maxY - b.minY }

  /** BBox2i::contains: the min corner is inside, the max corner is not. */
  predicate Contains(b: BBox2i, x: int, y: int) {
    b.minX <= x < b.maxX && b.minY <= y < b.maxY
  }

  /** The BBox2i(x, y, width, height) constructor. */
  function FromCornerAndSize(x: int, y: int, width: int, height: int): (b: BBox2i)
    ensures b.minX == x && b.minY == y && Width(b) == width && Height(b) == height
  {
    BBox2i(x, y, x + width, y + height)
  }

  /** Translating both corners by (dx, dy). */
  function Translate(b: BBox2i, dx: int, dy: int): (r: BBox2i)
    ensures Width(r) == Width(b) && Height(r) == Height(b)
    ensures r.minX == b.minX + dx && r.minY == b.minY + dy
  {
    BBox2i(b.minX + dx, b.minY + dy, b.maxX + dx, b.maxY + dy)
  }
}
