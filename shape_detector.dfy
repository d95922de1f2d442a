/** The shape of a detected screen's four corners: a rectangle seen
    face-on, a parallelogram or a trapezoid seen at an angle, or an
    irregular quadrilateral; and the score modifiers each shape implies.
    Square roots and arc cosines are given as functions. */
module ShapeDetector {
  import opened JsNumber

  datatype Point = Point(x: real, y: real)

  /** Corners clockwise from the top left. */
  datatype Corners = Corners(topLeft: Point, topRight: Point, bottomRight: Point, bottomLeft: Point)

  /** Four lengths or angles, in the order top, right, bottom, left for
      sides and top left, top right, bottom right, bottom left for angles. */
  datatype Quad = Quad(first: real, second: real, third: real, fourth: real)

  datatype ShapePattern = Rectangle | Parallelogram | Trapezoid | Irregular

  function RealMax(a: real, b: real): real { if a >= b then a else b }

  function RealAbs(a: real): real { if a < 0.0 then -a else a }

  /** `distance`, with the square root given. */
  function Distance(p: Point, q: Point, sqrt: real -> real): real {
    sqrt((q.x - p.x) * (q.x - p.x) + (q.y - p.y) * (q.y - p.y))
  }

  /** `Math.max(-1, Math.min(1, c))`. */
  function ClampUnit(c: real): (r: real)
    ensures -1.0 <= r <= 1.0
    ensures -1.0 <= c <= 1.0 ==> r == c
  {
    if c > 1.0 then 1.0 else if c < -1.0 then -1.0 else c
  }

  /** The dot product of the rays from the vertex to p and to q. */
  function Dot(p: Point, vertex: Point, q: Point): real {
    (p.x - vertex.x) * (q.x - vertex.x) + (p.y - vertex.y) * (q.y - vertex.y)
  }

  /** `calculateAngle`: the angle at the vertex between the rays to p and
      q, in degrees; 0 when either ray has length 0, otherwise the arc
      cosine of the clamped cosine. */
  function CalculateAngle(p: Point, vertex: Point, q: Point, sqrt: real -> real, acosDeg: real -> real): (a: real)
    ensures var (m1, m2) := (Distance(vertex, p, sqrt), Distance(vertex, q, sqrt));
      (m1 == 0.0 || m2 == 0.0 ==> a == 0.0)
      && (m1 != 0.0 && m2 != 0.0 ==> exists c :: -1.0 <= c <= 1.0 && a == acosDeg(c))
  {
    var mag1 := Distance(vertex, p, sqrt);
    var mag2 := Distance(vertex, q, sqrt);
    if mag1 == 0.0 || mag2 == 0.0 then 0.0
    else
      var c := ClampUnit(Dot(p, vertex, q) / (mag1 * mag2));
      acosDeg(c)
  }

  /** Rays of non-zero length at a right angle make the arc cosine of 0. */
  lemma RightAngle(p: Point, vertex: Point, q: Point, sqrt: real -> real, acosDeg: real -> real)
    requires Distance(vertex, p, sqrt) != 0.0 && Distance(vertex, q, sqrt) != 0.0
    requires Dot(p, vertex, q) == 0.0
    ensures CalculateAngle(p, vertex, q, sqrt, acosDeg) == acosDeg(0.0)
  {
  }

  /** With an arc cosine into [0, 180] every angle lies in [0, 180]. */
  lemma AngleInRange(p: Point, vertex: Point, q: Point, sqrt: real -> real, acosDeg: real -> real)
    requires forall c :: -1.0 <= c <= 1.0 ==> 0.0 <= acosDeg(c) <= 180.0
    ensures 0.0 <= CalculateAngle(p, vertex, q, sqrt, acosDeg) <= 180.0
  {
  }

  function Sides(c: Corners, sqrt: real -> real): Quad {
    Quad(Distance(c.topLeft, c.topRight, sqrt), Distance(c.topRight, c.bottomRight, sqrt),
         Distance(c.bottomRight, c.bottomLeft, sqrt), Distance(c.bottomLeft, c.topLeft, sqrt))
  }

  function Angles(c: Corners, sqrt: real -> real, acosDeg: real -> real): Quad {
    Quad(CalculateAngle(c.bottomLeft, c.topLeft, c.topRight, sqrt, acosDeg),
         CalculateAngle(c.topLeft, c.topRight, c.bottomRight, sqrt, acosDeg),
         CalculateAngle(c.topRight, c.bottomRight, c.bottomLeft, sqrt, acosDeg),
         CalculateAngle(c.bottomRight, c.bottomLeft, c.topLeft, sqrt, acosDeg))
  }

  /** How much two opposite sides differ, relative to the longer one; NaN
      when both are 0, infinite when the longer one is 0 and the other
      negative. */
  function OppositeDiff(a: real, b: real): Num {
    Quotient(RealAbs(a - b), RealMax(a, b))
  }

  predicate NearRight(a: real) { 85.0 <= a <= 95.0 }

  /** An angle 5 to 15 degrees off a right angle. */
  predicate Skewed(a: real) { (75.0 <= a < 85.0) || (95.0 < a <= 105.0) }

  predicate AllNearRight(q: Quad) {
    NearRight(q.first) && NearRight(q.second) && NearRight(q.third) && NearRight(q.fourth)
  }

  predicate SomeSkewed(q: Quad) {
    Skewed(q.first) || Skewed(q.second) || Skewed(q.third) || Skewed(q.fourth)
  }

  /** The rule cascade of `detectShapePattern` over given sides and
      angles: rectangle, parallelogram, trapezoid, in that priority. */
  function Classify(sides: Quad, angles: Quad): (p: ShapePattern)
    ensures var (d1, d2) := (OppositeDiff(sides.first, sides.third), OppositeDiff(sides.second, sides.fourth));
      && (p == Rectangle <==> AllNearRight(angles) && Lt(d1, 0.05) && Lt(d2, 0.05))
      && (p == Parallelogram <==> !(AllNearRight(angles) && Lt(d1, 0.05) && Lt(d2, 0.05))
                                  && Lt(d1, 0.1) && Lt(d2, 0.1) && SomeSkewed(angles))
      && (p == Trapezoid <==> !(AllNearRight(angles) && Lt(d1, 0.05) && Lt(d2, 0.05))
                              && !(Lt(d1, 0.1) && Lt(d2, 0.1) && SomeSkewed(angles))
                              && (Gt(d1, 0.1) || Gt(d2, 0.1)))
  {
    var d1 := OppositeDiff(sides.first, sides.third);
    var d2 := OppositeDiff(sides.second, sides.fourth);
    if AllNearRight(angles) && Lt(d1, 0.05) && Lt(d2, 0.05) then Rectangle
    else if Lt(d1, 0.1) && Lt(d2, 0.1) && SomeSkewed(angles) then Parallelogram
    else if Gt(d1, 0.1) || Gt(d2, 0.1) then Trapezoid
    else Irregular
  }

  /** `detectShapePattern`. */
  function DetectShapePattern(c: Corners, sqrt: real -> real, acosDeg: real -> real): ShapePattern {
    Classify(Sides(c, sqrt), Angles(c, sqrt, acosDeg))
  }

  /** A parallelogram always has an angle away from the right angle, and
      a trapezoid has two opposite sides more than 10 % apart. */
  lemma ShapesHaveTheirSignature(sides: Quad, angles: Quad)
    ensures Classify(sides, angles) == Parallelogram ==> !AllNearRight(angles)
    ensures Classify(sides, angles) == Trapezoid ==>
      exists d :: d in {OppositeDiff(sides.first, sides.third), OppositeDiff(sides.second, sides.fourth)} && Gt(d, 0.1)
  {
    var d1 := OppositeDiff(sides.first, sides.third);
    if Classify(sides, angles) == Trapezoid && Gt(d1, 0.1) {
      assert d1 in {d1, OppositeDiff(sides.second, sides.fourth)};
    }
  }

  /** Starting the corners at the next one turns both the sides and the
      angles by one place; the shape stays the same. */
  lemma ClassifyTurnInvariant(sides: Quad, angles: Quad)
    ensures Classify(Quad(sides.second, sides.third, sides.fourth, sides.first),
                     Quad(angles.second, angles.third, angles.fourth, angles.first))
         == Classify(sides, angles)
  {
    SwappedDiff(sides.fourth, sides.second);
    SwappedDiff(sides.first, sides.third);
  }

  lemma SwappedDiff(a: real, b: real)
    ensures OppositeDiff(a, b) == OppositeDiff(b, a)
  {
    assert RealAbs(a - b) == RealAbs(b - a);
    assert RealMax(a, b) == RealMax(b, a);
  }

  /** The gaps in the cascade: opposite sides exactly 10 % apart, or two
      sides of length 0 facing each other, make neither a parallelogram
      nor a trapezoid, even with right angles. */
  lemma BoundariesAreIrregular(angles: Quad)
    requires AllNearRight(angles)
    ensures Classify(Quad(10.0, 5.0, 9.0, 5.0), angles) == Irregular
    ensures Classify(Quad(0.0, 5.0, 0.0, 5.0), angles) == Irregular
  {
    assert OppositeDiff(10.0, 9.0) == Finite(0.1);
    assert OppositeDiff(5.0, 5.0) == Finite(0.0);
    assert OppositeDiff(0.0, 0.0) == NaN;
  }

  /** Right angles and equal opposite sides of positive length make a
      rectangle, whatever its proportions. */
  lemma TrueRectangleDetected(w: real, h: real)
    requires w > 0.0 && h > 0.0
    ensures Classify(Quad(w, h, w, h), Quad(90.0, 90.0, 90.0, 90.0)) == Rectangle
  {
    assert OppositeDiff(w, w) == Finite(0.0) && OppositeDiff(h, h) == Finite(0.0);
  }

  datatype ShapeAnalysis = ShapeAnalysis(pattern: ShapePattern, sides: Quad, angles: Quad,
                                         oppositeSideDiffs: (Num, Num), description: string)

  /** The description shown for each pattern. */
  function Description(p: ShapePattern): string {
    match p
    case Rectangle => "長方形（正面ビュー）- 4つの角度がすべて直角に近い"
    case Parallelogram => "平行四辺形（斜め3Dビュー）- 対辺が平行だが角度が直角でない"
    case Trapezoid => "台形（遠近法ビュー）- 1組の辺が平行で、もう1組の辺が平行でない"
    case Irregular => "不規則な四角形 - 明確なパターンに当てはまらない"
  }

  /** `analyzeShape`: the pattern together with the sides, angles and
      opposite-side differences it was decided from. */
  function AnalyzeShape(c: Corners, sqrt: real -> real, acosDeg: real -> real): (a: ShapeAnalysis)
    ensures a.pattern == DetectShapePattern(c, sqrt, acosDeg)
    ensures a.pattern == Classify(a.sides, a.angles)
    ensures a.oppositeSideDiffs == (OppositeDiff(a.sides.first, a.sides.third), OppositeDiff(a.sides.second, a.sides.fourth))
    ensures a.description == Description(a.pattern)
  {
    var sides := Sides(c, sqrt);
    var angles := Angles(c, sqrt, acosDeg);
    var pattern := DetectShapePattern(c, sqrt, acosDeg);
    ShapeAnalysis(pattern, sides, angles,
                  (OppositeDiff(sides.first, sides.third), OppositeDiff(sides.second, sides.fourth)),
                  Description(pattern))
  }

  datatype Modifiers = Modifiers(laptop: real, smartphone: real, tablet: real)

  /** `getShapeScoreModifiers`: a shape seen at an angle favours laptops
      and tablets and halves a smartphone's score; a rectangle or an
      irregular shape changes nothing. */
  function ShapeScoreModifiers(p: ShapePattern): (m: Modifiers)
    ensures m == Modifiers(1.0, 1.0, 1.0) <==> p == Rectangle || p == Irregular
    ensures m != Modifiers(1.0, 1.0, 1.0) ==> m == Modifiers(1.2, 0.5, 1.2)
  {
    match p
    case Rectangle => Modifiers(1.0, 1.0, 1.0)
    case Parallelogram => Modifiers(1.2, 0.5, 1.2)
    case Trapezoid => Modifiers(1.2, 0.5, 1.2)
    case Irregular => Modifiers(1.0, 1.0, 1.0)
  }

  /** A smartphone never gains from the shape, laptops and tablets never
      lose, and they are always treated alike. */
  lemma ModifiersFavourLargeDevices(p: ShapePattern)
    ensures var m := ShapeScoreModifiers(p);
      m.smartphone <= 1.0 <= m.laptop && m.laptop == m.tablet
  {
  }
}
