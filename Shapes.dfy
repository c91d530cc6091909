/** The three shapes, their selector labels, and the paint-time rendering:
    re-parse the live texts and lay out one filled primitive on the panel. */
module Shapes {
  import opened Wrappers
  import opened JavaInt
  import opened ParseInt

  datatype Shape = Circle | Triangle | Rectangle

  /** The selector's item text for each shape. */
  function Label(s: Shape): string {
    match s
    case Circle => "Circle (A)"
    case Triangle => "Triangle (B)"
    case Rectangle => "Rectangle (C)"
  }

  /** The source dispatches by comparing the selected item with each label in turn. */
  function ShapeOfLabel(item: string): (r: Option<Shape>)
    ensures r.Some? ==> Label(r.value) == item
  {
    if item == "Circle (A)" then Some(Circle)
    else if item == "Triangle (B)" then Some(Triangle)
    else if item == "Rectangle (C)" then Some(Rectangle)
    else None
  }

  /** Dispatching on a shape's own label recovers the shape, so the closed
      variant loses nothing against the string comparisons. */
  lemma LabelDispatch(s: Shape)
    ensures ShapeOfLabel(Label(s)) == Some(s)
  {
  }

  /** Triangle and Rectangle read the second dimension; Circle does not. */
  predicate NeedsSecond(s: Shape) {
    s == Triangle || s == Rectangle
  }

  /** The scaling factor every layout multiplies its dimensions by. */
  const Scale: int := 2

  /** One call of `fillOval`, `fillPolygon` or `fillRect` with its arguments. */
  datatype Primitive =
    | Oval(x: int, y: int, width: int, height: int)
    | Polygon(xs: seq<int>, ys: seq<int>, n: int)
    | Rect(x: int, y: int, width: int, height: int)

  /** `drawCircle`: diameter `radius * 2 * scale`, top-left half a diameter up
      and left of the panel's centre, all in `int` arithmetic. */
  function DrawCircle(panelWidth: int, panelHeight: int, radius: int): (p: Primitive)
    requires IsInt32(panelWidth) && IsInt32(panelHeight) && IsInt32(radius)
    ensures p.Oval? && p.width == p.height
    ensures IsInt32(p.x) && IsInt32(p.y) && IsInt32(p.width)
  {
    var diameter := JMul(JMul(radius, 2), Scale);
    var x := JSub(JDiv(panelWidth, 2), JDiv(diameter, 2));
    var y := JSub(JDiv(panelHeight, 2), JDiv(diameter, 2));
    Oval(x, y, diameter, diameter)
  }

  /** `drawTriangle`: base corners left and right of the centre column, below
      the centre row, apex on the centre column above it. */
  function DrawTriangle(panelWidth: int, panelHeight: int, base: int, height: int): (p: Primitive)
    requires IsInt32(panelWidth) && IsInt32(panelHeight) && IsInt32(base) && IsInt32(height)
    ensures p.Polygon? && |p.xs| == |p.ys| == p.n == 3
  {
    var cx := JDiv(panelWidth, 2);
    var cy := JDiv(panelHeight, 2);
    var halfBase := JDiv(JMul(base, Scale), 2);
    var halfHeight := JDiv(JMul(height, Scale), 2);
    assert IsInt32(halfBase) && IsInt32(halfHeight) && IsInt32(cx) && IsInt32(cy) by {
      JDivHalfInRange(panelWidth);
      JDivHalfInRange(panelHeight);
      JDivHalfInRange(JMul(base, Scale));
      JDivHalfInRange(JMul(height, Scale));
    }
    Polygon([JSub(cx, halfBase), JAdd(cx, halfBase), cx],
            [JAdd(cy, halfHeight), JAdd(cy, halfHeight), JSub(cy, halfHeight)],
            3)
  }

  /** `drawRectangle`: size `(width * scale, height * scale)`, top-left half
      that size up and left of the panel's centre. */
  function DrawRectangle(panelWidth: int, panelHeight: int, width: int, height: int): (p: Primitive)
    requires IsInt32(panelWidth) && IsInt32(panelHeight) && IsInt32(width) && IsInt32(height)
    ensures p.Rect?
    ensures IsInt32(p.x) && IsInt32(p.y) && IsInt32(p.width) && IsInt32(p.height)
  {
    var x := JSub(JDiv(panelWidth, 2), JDiv(JMul(width, Scale), 2));
    var y := JSub(JDiv(panelHeight, 2), JDiv(JMul(height, Scale), 2));
    Rect(x, y, JMul(width, Scale), JMul(height, Scale))
  }

  /** `drawShape`: re-parses the live texts, without checking their sign, and
      draws the selected shape; a text that fails to parse draws nothing. */
  function DrawShape(shape: Shape, text1: string, text2: string, panelWidth: int, panelHeight: int): (r: Option<Primitive>)
    requires IsInt32(panelWidth) && IsInt32(panelHeight)
    ensures r.Some? <==> ParseInt32(text1).Some? && (NeedsSecond(shape) ==> ParseInt32(text2).Some?)
    ensures r.Some? ==> (r.value.Oval? <==> shape == Circle)
    ensures r.Some? ==> (r.value.Polygon? <==> shape == Triangle)
    ensures r.Some? ==> (r.value.Rect? <==> shape == Rectangle)
    ensures r.Some? && shape == Circle ==>
      r.value == DrawCircle(panelWidth, panelHeight, ParseInt32(text1).value)
    ensures r.Some? && shape == Triangle ==>
      r.value == DrawTriangle(panelWidth, panelHeight, ParseInt32(text1).value, ParseInt32(text2).value)
    ensures r.Some? && shape == Rectangle ==>
      r.value == DrawRectangle(panelWidth, panelHeight, ParseInt32(text1).value, ParseInt32(text2).value)
  {
    match shape
    case Circle =>
      (match ParseInt32(text1)
       case None => None
       case Some(radius) => Some(DrawCircle(panelWidth, panelHeight, radius)))
    case Triangle =>
      (match (ParseInt32(text1), ParseInt32(text2))
       case (Some(base), Some(height)) => Some(DrawTriangle(panelWidth, panelHeight, base, height))
       case _ => None)
    case Rectangle =>
      (match (ParseInt32(text1), ParseInt32(text2))
       case (Some(width), Some(height)) => Some(DrawRectangle(panelWidth, panelHeight, width, height))
       case _ => None)
  }

  /** A circle whose `4 * radius` fits in an `int` is an oval of diameter
      `4 * radius` whose centre is the panel's centre. */
  lemma CircleGeometry(panelWidth: int, panelHeight: int, radius: int)
    requires IsInt32(panelWidth) && IsInt32(panelHeight) && IsInt32(4 * radius)
    ensures var p := DrawCircle(panelWidth, panelHeight, radius);
      && p.width == p.height == 4 * radius
      && p.x == JDiv(panelWidth, 2) - 2 * radius
      && p.y == JDiv(panelHeight, 2) - 2 * radius
      && p.x + JDiv(p.width, 2) == JDiv(panelWidth, 2)
      && p.y + JDiv(p.height, 2) == JDiv(panelHeight, 2)
  {
  }

  /** A rectangle whose doubled sides fit in an `int` has size `(2w, 2h)`,
      top-left `(W/2 - w, H/2 - h)`, and extends equally either side of the
      panel's centre column and centre row. */
  lemma RectangleGeometry(panelWidth: int, panelHeight: int, width: int, height: int)
    requires IsInt32(panelWidth) && IsInt32(panelHeight)
    requires IsInt32(2 * width) && IsInt32(2 * height)
    ensures var p := DrawRectangle(panelWidth, panelHeight, width, height);
      && p.width == 2 * width && p.height == 2 * height
      && p.x == JDiv(panelWidth, 2) - width
      && p.y == JDiv(panelHeight, 2) - height
      && p.x + p.width == JDiv(panelWidth, 2) + width
      && p.y + p.height == JDiv(panelHeight, 2) + height
  {
  }

  /** A triangle whose doubled base and height fit in an `int` has its two
      base corners on one row `H/2 + h`, mirrored about the apex's column
      `W/2`, and its apex on row `H/2 - h`, above the base when `h > 0`. */
  lemma TriangleGeometry(panelWidth: int, panelHeight: int, base: int, height: int)
    requires IsInt32(panelWidth) && IsInt32(panelHeight)
    requires IsInt32(2 * base) && IsInt32(2 * height)
    ensures var p := DrawTriangle(panelWidth, panelHeight, base, height);
      && p.n == 3 && |p.xs| == 3 && |p.ys| == 3
      && p.xs == [JDiv(panelWidth, 2) - base, JDiv(panelWidth, 2) + base, JDiv(panelWidth, 2)]
      && p.ys == [JDiv(panelHeight, 2) + height, JDiv(panelHeight, 2) + height, JDiv(panelHeight, 2) - height]
      && p.xs[0] + p.xs[1] == 2 * p.xs[2]
      && p.ys[0] == p.ys[1]
      && (height > 0 ==> p.ys[2] < p.ys[0])
  {
  }

  /** The diameter is computed in `int`: a radius of 2^29 (which validation
      accepts, see `Validation.AcceptedCircleOverflows`) gives `radius * 2 * scale == 2^31`, which wraps
      to a negative diameter, so `fillOval` gets a negative size. */
  lemma CircleDiameterOverflow(panelWidth: int, panelHeight: int)
    requires IsInt32(panelWidth) && IsInt32(panelHeight)
    ensures DrawCircle(panelWidth, panelHeight, 0x2000_0000).width == IntMin
  {
  }
}
