/**
 * UnaryPerPixelAccessorView: a lazy view whose pixel (i, j, p) is a functor
 * applied to a pixel accessor of the wrapped image placed at (i, j, p). The
 * functor may read the wrapped image anywhere in its work area around that
 * position, so rasterizing a region of the view needs the wrapped image on
 * that region padded by the work area.
 */
module PerPixelAccessorViews {
  import opened ImageView
  import opened BBox

  /** A pixel accessor: an image and a position in it. */
  datatype Accessor<P> = Accessor(view: View<P>, col: int, row: int, plane: int)

  /** image.origin(). */
  function Origin<P>(view: View<P>): Accessor<P> {
    Accessor(view, 0, 0, 0)
  }

  /** accessor.advance(di, dj, dp). */
  function Advance<P>(a: Accessor<P>, di: int, dj: int, dp: int): Accessor<P> {
    a.(col := a.col + di, row := a.row + dj, plane := a.plane + dp)
  }

  /** A per-pixel-accessor functor: what it computes from an accessor, and
      work_area(), the offsets around the accessor it may read. */
  datatype PixelFunc<!P, R> = PixelFunc(apply: Accessor<P> -> R, workArea: BBox2i)

  function NonNeg(n: int): nat {
    if n < 0 then 0 else n
  }

  /** The pixels an accessor's work area covers, row by row. */
  function Window<P>(a: Accessor<P>, workArea: BBox2i): seq<seq<P>> {
    seq(NonNeg(Height(workArea)), y => WindowRow(a, workArea, y))
  }

  /** Row y of the work area around an accessor. */
  function WindowRow<P>(a: Accessor<P>, workArea: BBox2i, y: int): (r: seq<P>)
    ensures |r| == NonNeg(Width(workArea))
    ensures forall x :: 0 <= x < |r| ==> r[x] == a.view.pixel(a.col + workArea.minX + x, a.row + workArea.minY + y, a.plane)
  {
    seq(NonNeg(Width(workArea)), x => a.view.pixel(a.col + workArea.minX + x, a.row + workArea.minY + y, a.plane))
  }

  /** The functor reads nothing outside its work area: two accessors that see
      the same pixels there give the same result. */
  ghost predicate Local<P(!new), R>(f: PixelFunc<P, R>) {
    forall a1: Accessor<P>, a2: Accessor<P> ::
      Window(a1, f.workArea) == Window(a2, f.workArea) ==> f.apply(a1) == f.apply(a2)
  }

  datatype UnaryPerPixelAccessorView<!P, R> = UnaryPerPixelAccessorView(image: View<P>, func: PixelFunc<P, R>)

  /** The view as an image: the wrapped image's dimensions, and at (i, j, p)
      the functor applied to an accessor of the wrapped image at (i, j, p). */
  function AsView<P, R>(v: UnaryPerPixelAccessorView<P, R>): (r: View<R>)
    ensures r.cols == v.image.cols && r.rows == v.image.rows && r.planes == v.image.planes
    ensures forall i, j, p :: r.pixel(i, j, p) == v.func.apply(Accessor(v.image, i, j, p))
  {
    View(v.image.cols, v.image.rows, v.image.planes, (i, j, p) => At(v, i, j, p))
  }

  /** operator()(i, j, p): the functor on the origin advanced by (i, j, p). */
  function At<P, R>(v: UnaryPerPixelAccessorView<P, R>, i: int, j: int, p: int): (px: R)
    ensures px == v.func.apply(Accessor(v.image, i, j, p))
  {
    v.func.apply(Advance(Origin(v.image), i, j, p))
  }

  /** pad_bbox: the box grown by the functor's work area. */
  function PadBBox(workArea: BBox2i, bbox: BBox2i): (r: BBox2i)
    ensures r.minX == bbox.minX + workArea.minX && r.minY == bbox.minY + workArea.minY
    ensures Width(r) == Width(bbox) + Width(workArea) && Height(r) == Height(bbox) + Height(workArea)
  {
    var paddedWidth := Width(bbox) + Width(workArea);
    var paddedHeight := Height(bbox) + Height(workArea);
    FromCornerAndSize(bbox.minX + workArea.minX, bbox.minY + workArea.minY, paddedWidth, paddedHeight)
  }

  /** The padded box holds every pixel a functor reads for any position in
      the box: a position in bbox plus an offset in the work area. */
  lemma PadCoversWorkArea(workArea: BBox2i, bbox: BBox2i, i: int, j: int, dx: int, dy: int)
    requires Contains(bbox, i, j) && Contains(workArea, dx, dy)
    ensures Contains(PadBBox(workArea, bbox), i + dx, j + dy)
  {
  }

  // ---------------------------------------------------------------------
  // Prerasterizing through a buffer
  // ---------------------------------------------------------------------

  /**
   * An ImageView the size of `box` that rasterize filled from `image` over
   * `box`. Reads outside the buffer are undefined; `junk` stands for
   * whatever they return.
   */
  function RasterizeBuffer<P>(image: View<P>, box: BBox2i, junk: (int, int, int) -> P): (buf: View<P>)
    ensures buf.cols == Width(box) && buf.rows == Height(box) && buf.planes == image.planes
    ensures forall x, y, p :: InBounds(buf, x, y, p) ==> buf.pixel(x, y, p) == image.pixel(x + box.minX, y + box.minY, p)
  {
    View(Width(box), Height(box), image.planes, (x, y, p) =>
      if 0 <= x < Width(box) && 0 <= y < Height(box) && 0 <= p < image.planes
      then image.pixel(x + box.minX, y + box.minY, p) else junk(x, y, p))
  }

  /** CropView(view, box): the view seen through a window whose origin is box's min corner. */
  function Crop<P>(view: View<P>, box: BBox2i): (r: View<P>)
    ensures r.cols == Width(box) && r.rows == Height(box) && r.planes == view.planes
    ensures forall i, j, p :: r.pixel(i, j, p) == view.pixel(i + box.minX, j + box.minY, p)
  {
    View(Width(box), Height(box), view.planes, (i, j, p) => view.pixel(i + box.minX, j + box.minY, p))
  }

  /** prerasterize(bbox) when the wrapped image is not multiply accessible:
      rasterize the padded box into a buffer and wrap the buffer, cropped so
      that its coordinates are those of the wrapped image. */
  function PrerasterizeBuffered<P, R>(v: UnaryPerPixelAccessorView<P, R>, bbox: BBox2i, junk: (int, int, int) -> P)
    : (r: UnaryPerPixelAccessorView<P, R>)
    ensures r.func == v.func
    ensures r.image.cols == v.image.cols && r.image.rows == v.image.rows && r.image.planes == v.image.planes
  {
    var adjusted := PadBBox(v.func.workArea, bbox);
    var buf := RasterizeBuffer(v.image, adjusted, junk);
    UnaryPerPixelAccessorView(Crop(buf, FromCornerAndSize(-adjusted.minX, -adjusted.minY, v.image.cols, v.image.rows)), v.func)
  }

  /** The cropped buffer shows the wrapped image everywhere in the padded box. */
  lemma BufferedImageAgrees<P, R>(v: UnaryPerPixelAccessorView<P, R>, bbox: BBox2i, junk: (int, int, int) -> P,
                                  x: int, y: int, p: int)
    requires Contains(PadBBox(v.func.workArea, bbox), x, y) && 0 <= p < v.image.planes
    ensures PrerasterizeBuffered(v, bbox, junk).image.pixel(x, y, p) == v.image.pixel(x, y, p)
  {
    var adjusted := PadBBox(v.func.workArea, bbox);
    var buf := RasterizeBuffer(v.image, adjusted, junk);
    assert InBounds(buf, x - adjusted.minX, y - adjusted.minY, p);
  }

  /**
   * For a functor that keeps to its work area, the prerasterized view equals
   * the original at every pixel of the requested box: padding by the work
   * area is enough, and nothing outside the buffer is read.
   */
  lemma PrerasterizeBufferedAgrees<P(!new), R>(v: UnaryPerPixelAccessorView<P, R>, bbox: BBox2i, junk: (int, int, int) -> P,
                                         i: int, j: int, p: int)
    requires Local(v.func)
    requires Contains(bbox, i, j) && 0 <= p < v.image.planes
    ensures At(PrerasterizeBuffered(v, bbox, junk), i, j, p) == At(v, i, j, p)
  {
    var wa := v.func.workArea;
    var pre := PrerasterizeBuffered(v, bbox, junk);
    var a1 := Accessor(pre.image, i, j, p);
    var a2 := Accessor(v.image, i, j, p);
    forall y | 0 <= y < NonNeg(Height(wa))
      ensures WindowRow(a1, wa, y) == WindowRow(a2, wa, y)
    {
      forall x | 0 <= x < NonNeg(Width(wa))
        ensures WindowRow(a1, wa, y)[x] == WindowRow(a2, wa, y)[x]
      {
        PadCoversWorkArea(wa, bbox, i, j, wa.minX + x, wa.minY + y);
        BufferedImageAgrees(v, bbox, junk, i + wa.minX + x, j + wa.minY + y, p);
      }
    }
    assert Window(a1, wa) == Window(a2, wa);
  }

  // ---------------------------------------------------------------------
  // per_pixel_accessor_filter
  // ---------------------------------------------------------------------

  /** An edge extension: the value of a pixel outside the image. */
  type EdgeRule<!P> = (View<P>, int, int, int) -> P

  /** ZeroEdgeExtension: every pixel outside the image is the zero pixel. */
  function ZeroEdgeExtension<P>(zero: P): EdgeRule<P> {
    (view, i, j, p) => zero
  }

  /** edge_extend(view, edge): the view inside its bounds, the edge rule outside. */
  function EdgeExtend<P>(view: View<P>, edge: EdgeRule<P>): (r: View<P>)
    ensures r.cols == view.cols && r.rows == view.rows && r.planes == view.planes
    ensures forall i, j, p :: InBounds(view, i, j, p) ==> r.pixel(i, j, p) == view.pixel(i, j, p)
    ensures forall i, j, p :: !InBounds(view, i, j, p) ==> r.pixel(i, j, p) == edge(view, i, j, p)
  {
    View(view.cols, view.rows, view.planes, (i, j, p) =>
      if 0 <= i < view.cols && 0 <= j < view.rows && 0 <= p < view.planes then view.pixel(i, j, p) else edge(view, i, j, p))
  }

  /** per_pixel_accessor_filter(image, func, edge). */
  function PerPixelAccessorFilterWithEdge<P, R>(image: View<P>, func: PixelFunc<P, R>, edge: EdgeRule<P>): UnaryPerPixelAccessorView<P, R> {
    UnaryPerPixelAccessorView(EdgeExtend(image, edge), func)
  }

  /** per_pixel_accessor_filter(image, func): `zero` is the zero pixel of the image's pixel type. */
  function PerPixelAccessorFilter<P, R>(image: View<P>, func: PixelFunc<P, R>, zero: P): UnaryPerPixelAccessorView<P, R> {
    UnaryPerPixelAccessorView(EdgeExtend(image, ZeroEdgeExtension(zero)), func)
  }

  /** Without an edge argument the filter extends with zeros: it is the
      filter given ZeroEdgeExtension, it has the image's dimensions, and the
      functor reads zero pixels beyond the image's border. */
  lemma DefaultFilterExtendsWithZeros<P, R>(image: View<P>, func: PixelFunc<P, R>, zero: P)
    ensures PerPixelAccessorFilter(image, func, zero) == PerPixelAccessorFilterWithEdge(image, func, ZeroEdgeExtension(zero))
    ensures AsView(PerPixelAccessorFilter(image, func, zero)).cols == image.cols
    ensures AsView(PerPixelAccessorFilter(image, func, zero)).rows == image.rows
    ensures AsView(PerPixelAccessorFilter(image, func, zero)).planes == image.planes
    ensures forall i, j, p :: !InBounds(image, i, j, p) ==> PerPixelAccessorFilter(image, func, zero).image.pixel(i, j, p) == zero
    ensures forall i, j, p :: InBounds(image, i, j, p) ==> PerPixelAccessorFilter(image, func, zero).image.pixel(i, j, p) == image.pixel(i, j, p)
  {
  }
}
