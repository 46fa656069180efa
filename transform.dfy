/** Placement geometry of client/utils/transform.js: the eight DEF
    orientations applied to integer design points and rectangles, and the
    affine design-to-canvas conversion with its Y inversion. */
module Transform {
  import opened Wrappers

  datatype Point = Point(x: int, y: int)

  /** The origin of a placement; either coordinate may be missing, and a
      missing one counts as 0. */
  datatype Origin = Origin(x: Option<int>, y: Option<int>)

  /** A design rectangle; `rest` stands for every other field the object
      carries (ID, Layer, Via, ...). */
  datatype Rect<F> = Rect(XMin: int, YMin: int, XMax: int, YMax: int, rest: F)

  // The Orientation enumeration of client/utils/enums.js.
  const R0: int := 0
  const R90: int := 1
  const R180: int := 2
  const R270: int := 3
  const MY: int := 4
  const MYR90: int := 5
  const MX: int := 6
  const MXR90: int := 7

  const ZeroOrigin: Origin := Origin(Some(0), Some(0))

  /** `offset || 0`: a missing component contributes nothing. */
  function OffsetOf(c: Option<int>): (d: int)
    ensures c.None? ==> d == 0
    ensures c.Some? ==> d == c.value
  {
    c.GetOr(0)
  }

  /** The switch over the orientation, before translation. A value that
      matches no case leaves the point as it is. */
  function Orient(p: Point, orientation: int): Point {
    if orientation == R90 then Point(-p.y, p.x)
    else if orientation == R180 then Point(-p.x, -p.y)
    else if orientation == R270 then Point(p.y, -p.x)
    else if orientation == MY then Point(-p.x, p.y)
    else if orientation == MYR90 then
      var m := Point(-p.x, p.y);
      Point(-m.y, m.x)
    else if orientation == MX then Point(p.x, -p.y)
    else if orientation == MXR90 then
      var m := Point(p.x, -p.y);
      Point(-m.y, m.x)
    else p
  }

  function TransformPoint(p: Point, orientation: int, origin: Origin): (q: Point)
    ensures q.x == Orient(p, orientation).x + OffsetOf(origin.x)
    ensures q.y == Orient(p, orientation).y + OffsetOf(origin.y)
  {
    var t := Orient(p, orientation);
    Point(t.x + OffsetOf(origin.x), t.y + OffsetOf(origin.y))
  }

  // ---- An independent reference: quarter turns and mirrors composed ----

  /** Counter-clockwise quarter turn about the origin. */
  function Rotate90(p: Point): Point { Point(-p.y, p.x) }
  /** Mirror about the Y axis (negates x). */
  function MirrorY(p: Point): Point { Point(-p.x, p.y) }
  /** Mirror about the X axis (negates y). */
  function MirrorX(p: Point): Point { Point(p.x, -p.y) }

  /** DEF's reading of the orientation names: Rk is k quarter turns, and
      the mirrored ones mirror first and then turn. */
  function Placement(p: Point, orientation: int): Point {
    if orientation == R90 then Rotate90(p)
    else if orientation == R180 then Rotate90(Rotate90(p))
    else if orientation == R270 then Rotate90(Rotate90(Rotate90(p)))
    else if orientation == MY then MirrorY(p)
    else if orientation == MYR90 then Rotate90(MirrorY(p))
    else if orientation == MX then MirrorX(p)
    else if orientation == MXR90 then Rotate90(MirrorX(p))
    else p
  }

  /** The switch agrees with the composed placement for every orientation,
      in range or not. */
  lemma OrientIsPlacement(p: Point, orientation: int)
    ensures Orient(p, orientation) == Placement(p, orientation)
  {
  }

  /** R0 with a zero origin is the identity, and a missing origin coordinate
      is the same as a zero one. */
  lemma R0Identity(p: Point)
    ensures TransformPoint(p, R0, ZeroOrigin) == p
    ensures TransformPoint(p, R0, Origin(None, None)) == p
  {
  }

  lemma MissingOriginIsZero(p: Point, orientation: int, ox: Option<int>, oy: Option<int>)
    ensures TransformPoint(p, orientation, Origin(ox, None))
         == TransformPoint(p, orientation, Origin(ox, Some(0)))
    ensures TransformPoint(p, orientation, Origin(None, oy))
         == TransformPoint(p, orientation, Origin(Some(0), oy))
  {
  }

  /** Any value outside 0..7 behaves exactly like R0 plus translation. */
  lemma OutOfRangeIsR0(p: Point, orientation: int, origin: Origin)
    requires !(0 <= orientation <= 7)
    ensures TransformPoint(p, orientation, origin) == TransformPoint(p, R0, origin)
  {
  }

  /** The quarter turns, with a zero origin. */
  lemma QuarterTurns(p: Point)
    ensures TransformPoint(p, R90, ZeroOrigin) == Point(-p.y, p.x)
    ensures TransformPoint(p, R270, ZeroOrigin) == Point(p.y, -p.x)
    ensures TransformPoint(TransformPoint(p, R90, ZeroOrigin), R270, ZeroOrigin) == p
    ensures TransformPoint(TransformPoint(p, R270, ZeroOrigin), R90, ZeroOrigin) == p
    ensures TransformPoint(TransformPoint(p, R90, ZeroOrigin), R90, ZeroOrigin)
         == TransformPoint(p, R180, ZeroOrigin)
  {
  }

  function TurnR90(p: Point, n: nat): Point
    decreases n
  {
    if n == 0 then p else TransformPoint(TurnR90(p, n - 1), R90, ZeroOrigin)
  }

  /** Four quarter turns are the identity. */
  lemma R90FourTimes(p: Point)
    ensures TurnR90(p, 4) == p
  {
  }

  /** The inverse orientation of each of the eight. */
  function Inverse(orientation: int): (inv: int)
    ensures 0 <= orientation <= 7 ==> 0 <= inv <= 7
  {
    if orientation == R90 then R270
    else if orientation == R270 then R90
    else orientation
  }

  /** Undoing a placement: every orientation is undone by its inverse, and
      R180, MY, MYR90 ((x,y) -> (-y,-x)), MX and MXR90 ((x,y) -> (y,x)) are
      their own inverses. */
  lemma InverseRoundTrip(p: Point, orientation: int)
    ensures TransformPoint(TransformPoint(p, orientation, ZeroOrigin), Inverse(orientation), ZeroOrigin) == p
    ensures orientation in {R180, MY, MYR90, MX, MXR90} ==> Inverse(orientation) == orientation
    ensures orientation == MYR90 ==> TransformPoint(p, orientation, ZeroOrigin) == Point(-p.y, -p.x)
    ensures orientation == MXR90 ==> TransformPoint(p, orientation, ZeroOrigin) == Point(p.y, p.x)
  {
  }

  // ---- Rectangles ----

  predicate Normalised<F>(r: Rect<F>) {
    r.XMin <= r.XMax && r.YMin <= r.YMax
  }

  function Min(a: int, b: int): int { if a < b then a else b }
  function Max(a: int, b: int): int { if a < b then b else a }

  /** Transforms the two stored corners and re-normalises: the smaller x
      goes to XMin (the strict `<` sends ties to the else branch, where both
      are equal anyway), and likewise for y. Other fields are copied. */
  function TransformRect<F>(r: Rect<F>, orientation: int, origin: Origin): (t: Rect<F>)
    ensures Normalised(t)
    ensures t.rest == r.rest
  {
    var ll := TransformPoint(Point(r.XMin, r.YMin), orientation, origin);
    var ur := TransformPoint(Point(r.XMax, r.YMax), orientation, origin);
    r.(XMin := Min(ll.x, ur.x), YMin := Min(ll.y, ur.y), XMax := Max(ll.x, ur.x), YMax := Max(ll.y, ur.y))
  }

  function Width<F>(r: Rect<F>): int { r.XMax - r.XMin }
  function Height<F>(r: Rect<F>): int { r.YMax - r.YMin }

  /** R0, R180, MX and MY keep a normalised rectangle's width and height;
      R90, R270, MYR90 and MXR90 swap them. Translation changes neither. */
  lemma TransformRectExtent<F>(r: Rect<F>, orientation: int, origin: Origin)
    requires Normalised(r)
    ensures orientation in {R0, R180, MX, MY} ==>
      Width(TransformRect(r, orientation, origin)) == Width(r) &&
      Height(TransformRect(r, orientation, origin)) == Height(r)
    ensures orientation in {R90, R270, MYR90, MXR90} ==>
      Width(TransformRect(r, orientation, origin)) == Height(r) &&
      Height(TransformRect(r, orientation, origin)) == Width(r)
  {
  }

  /** Where each orientation sends the edges of a normalised rectangle
      placed at the zero origin, edge by edge. */
  function Turned<F>(r: Rect<F>, orientation: int): Rect<F> {
    var (a, b, c, d) := (r.XMin, r.YMin, r.XMax, r.YMax);
    if orientation == R90 then r.(XMin := -d, YMin := a, XMax := -b, YMax := c)
    else if orientation == R180 then r.(XMin := -c, YMin := -d, XMax := -a, YMax := -b)
    else if orientation == R270 then r.(XMin := b, YMin := -c, XMax := d, YMax := -a)
    else if orientation == MY then r.(XMin := -c, XMax := -a)
    else if orientation == MYR90 then r.(XMin := -d, YMin := -c, XMax := -b, YMax := -a)
    else if orientation == MX then r.(YMin := -d, YMax := -b)
    else if orientation == MXR90 then r.(XMin := b, YMin := a, XMax := d, YMax := c)
    else r
  }

  /** Transforming a normalised rectangle moves its edges as Turned says:
      under R90, for instance, the new left edge is the old top edge
      negated. */
  lemma TransformRectTurned<F>(r: Rect<F>, orientation: int)
    requires Normalised(r)
    ensures TransformRect(r, orientation, ZeroOrigin) == Turned(r, orientation)
  {
    var ll := TransformPoint(Point(r.XMin, r.YMin), orientation, ZeroOrigin);
    var ur := TransformPoint(Point(r.XMax, r.YMax), orientation, ZeroOrigin);
    assert ll == Orient(Point(r.XMin, r.YMin), orientation);
    assert ur == Orient(Point(r.XMax, r.YMax), orientation);
    if orientation == R90 {
    } else if orientation == R180 {
    } else if orientation == R270 {
    } else if orientation == MY {
    } else if orientation == MYR90 {
    } else if orientation == MX {
    } else if orientation == MXR90 {
    }
  }

  /** Turned undone by the inverse orientation. */
  lemma TurnedRoundTrip<F>(r: Rect<F>, orientation: int)
    ensures Turned(Turned(r, orientation), Inverse(orientation)) == r
  {
  }

  /** Placing a normalised rectangle and undoing the placement with the
      inverse orientation gives back the rectangle. */
  lemma TransformRectRoundTrip<F>(r: Rect<F>, orientation: int)
    requires Normalised(r)
    ensures TransformRect(TransformRect(r, orientation, ZeroOrigin), Inverse(orientation), ZeroOrigin) == r
  {
    var t := TransformRect(r, orientation, ZeroOrigin);
    TransformRectTurned(r, orientation);
    TransformRectTurned(t, Inverse(orientation));
    TurnedRoundTrip(r, orientation);
  }

  // ---- Design to canvas ----

  /** The part of the viewer's internal configuration the conversion reads. */
  datatype Config = Config(height: real, scaleFactorX: real, scaleFactorY: real,
                           originOffsetX: real, originOffsetY: real)

  datatype CanvasRect = CanvasRect(x: real, y: real, width: real, height: real)

  function ConvertRectCoords<F>(config: Config, r: Rect<F>): CanvasRect {
    CanvasRect(
      r.XMin as real * config.scaleFactorX + config.originOffsetX,
      config.height - r.YMax as real * config.scaleFactorY + config.originOffsetY,
      (r.XMax - r.XMin) as real * config.scaleFactorX,
      (r.YMax - r.YMin) as real * config.scaleFactorY)
  }

  /** Width and height do not depend on the offsets; the canvas y is the
      flipped top edge, and the canvas bottom edge is the flipped YMin. */
  lemma ConvertRectCoordsShape<F>(config: Config, r: Rect<F>, offX: real, offY: real)
    ensures var c := ConvertRectCoords(config, r);
            var d := ConvertRectCoords(config.(originOffsetX := offX, originOffsetY := offY), r);
            c.width == d.width && c.height == d.height &&
            c.x - d.x == config.originOffsetX - offX &&
            c.y - d.y == config.originOffsetY - offY
    ensures var c := ConvertRectCoords(config, r);
            c.y + c.height == config.height - r.YMin as real * config.scaleFactorY + config.originOffsetY
  {
  }

  /** With positive scale factors a normalised rectangle has a non-negative
      canvas width, and a wider design rectangle a strictly wider one. */
  lemma ConvertRectCoordsMonotonic<F>(config: Config, r: Rect<F>, s: Rect<F>)
    requires config.scaleFactorX > 0.0 && config.scaleFactorY > 0.0
    ensures Normalised(r) ==> ConvertRectCoords(config, r).width >= 0.0 &&
                              ConvertRectCoords(config, r).height >= 0.0
    ensures Width(r) < Width(s) ==> ConvertRectCoords(config, r).width < ConvertRectCoords(config, s).width
  {
    if Width(r) < Width(s) {
      assert (Width(s) - Width(r)) as real * config.scaleFactorX > 0.0;
    }
  }

  /** The scale factors and offsets fitted to the die, inset by the chip
      outline's stroke width (client/components/viewer/DEFViewer.js). A die
      of zero extent divides by zero there; it is reported as None here. */
  function FitToDie<F>(width: real, height: real, strokeWidth: real, die: Rect<F>): (c: Option<Config>)
    ensures c.Some? <==> die.XMax != die.XMin && die.YMax != die.YMin
  {
    if die.XMax == die.XMin || die.YMax == die.YMin then None
    else
      var sx := (width - strokeWidth * 2.0) / (die.XMax - die.XMin) as real;
      var sy := (height - strokeWidth * 2.0) / (die.YMax - die.YMin) as real;
      Some(Config(height, sx, sy,
                  -(die.XMin as real) * sx + strokeWidth,
                  die.YMin as real * sy - strokeWidth))
  }

  /** The die lands exactly inside the stroke: at (strokeWidth, strokeWidth)
      with the canvas size less twice the stroke. */
  lemma FitToDieFrames<F>(width: real, height: real, strokeWidth: real, die: Rect<F>)
    requires die.XMax != die.XMin && die.YMax != die.YMin
    ensures ConvertRectCoords(FitToDie(width, height, strokeWidth, die).value, die)
         == CanvasRect(strokeWidth, strokeWidth, width - 2.0 * strokeWidth, height - 2.0 * strokeWidth)
  {
    var c := FitToDie(width, height, strokeWidth, die).value;
    var dx, dy := (die.XMax - die.XMin) as real, (die.YMax - die.YMin) as real;
    assert c.scaleFactorX * dx == width - strokeWidth * 2.0;
    assert c.scaleFactorY * dy == height - strokeWidth * 2.0;
    calc {
      c.height - die.YMax as real * c.scaleFactorY + c.originOffsetY;
      height - (die.YMax as real - die.YMin as real) * c.scaleFactorY - strokeWidth;
      height - dy * c.scaleFactorY - strokeWidth;
      strokeWidth;
    }
  }
}
