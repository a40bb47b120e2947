/** The grid geometry: influence rectangles and why they cover every eligible observer. */
module InterestGrid {
  import opened NetTypes
  import opened InterestModel

  datatype Cell = Cell(x: int, z: int)

  datatype Span = Span(low: Cell, high: Cell)

  predicate ValidPosition(limits: Limits, p: Vec3) {
    && -limits.maxCoordinate <= p.x <= limits.maxCoordinate
    && -limits.maxCoordinate <= p.y <= limits.maxCoordinate
    && -limits.maxCoordinate <= p.z <= limits.maxCoordinate
  }

  function CellAt(limits: Limits, x: real, z: real): Cell
    requires limits.cellSize > 0.0
  {
    Cell((x / limits.cellSize).Floor, (z / limits.cellSize).Floor)
  }

  /** The widest distance at which the entity can matter to anybody. */
  function Influence(limits: Limits, e: Registration): real {
    e.bounds.radius + e.cullRadius + limits.leaveMargin + limits.prefetch
  }

  predicate ValidBounds(limits: Limits, e: Registration) {
    && ValidPosition(limits, e.bounds.center)
    && e.bounds.radius >= 0.0
    && e.cullRadius >= 0.0
    && Influence(limits, e) <= limits.maxCoordinate
  }

  function InfluenceSpan(limits: Limits, e: Registration): Span
    requires limits.cellSize > 0.0
  {
    var r := Influence(limits, e);
    var c := e.bounds.center;
    Span(CellAt(limits, c.x - r, c.z - r), CellAt(limits, c.x + r, c.z + r))
  }

  function CellCount(span: Span): int {
    (span.high.x - span.low.x + 1) * (span.high.z - span.low.z + 1)
  }

  /** `Graph::footprint_span`: validated influence rectangle, none for an unplaced entity. */
  function FootprintSpan(limits: Limits, e: Registration): Result<Option<Span>, GraphError>
    requires limits.cellSize > 0.0
  {
    if !ValidBounds(limits, e) then Err(InvalidBounds)
    else if e.routes.spatial.None? then Ok(None)
    else if CellCount(InfluenceSpan(limits, e)) > limits.maxCellsPerEntity then Err(Limit("cells per entity"))
    else Ok(Some(InfluenceSpan(limits, e)))
  }

  function Rectangle(span: Span): set<Cell> {
    set x, z | span.low.x <= x <= span.high.x && span.low.z <= z <= span.high.z :: Cell(x, z)
  }

  /** The cells an entity is registered under. */
  function Footprint(limits: Limits, e: Registration): set<Cell>
    requires limits.cellSize > 0.0
  {
    if e.routes.spatial.None? then {} else Rectangle(InfluenceSpan(limits, e))
  }

  /** Exact distance test, on squares. */
  predicate Within(p: Vec3, q: Vec3, radius: real) {
    (p.x - q.x) * (p.x - q.x) + (p.y - q.y) * (p.y - q.y) + (p.z - q.z) * (p.z - q.z) <= radius * radius
  }

  /** Entry radius; entities already eligible keep the leave margin on top. */
  function EligibleRadius(limits: Limits, e: Registration, previous: bool): real {
    e.bounds.radius + e.cullRadius + limits.prefetch + (if previous then limits.leaveMargin else 0.0)
  }

  predicate Sees(limits: Limits, e: Registration, observer: Observer, previous: bool) {
    && observer.scene == e.scene
    && Within(e.bounds.center, observer.position, EligibleRadius(limits, e, previous))
  }

  predicate SpatiallyEligible(limits: Limits, e: Registration, view: ConnectionView, previous: bool) {
    exists i :: 0 <= i < |view.observers| && Sees(limits, e, view.observers[i], previous)
  }

  lemma SquareGrows(a: real, b: real)
    requires 0.0 <= b < a
    ensures b * b < a * a
  {
    var gap, sum := a - b, a + b;
    assert gap * sum > 0.0;
    assert gap * sum == a * a - b * b;
  }

  lemma ProjectionWithin(d: real, rest: real, r: real)
    requires r >= 0.0 && rest >= 0.0 && d * d + rest <= r * r
    ensures -r <= d <= r
  {
    var size := if d < 0.0 then -d else d;
    assert size * size == d * d;
    if size > r {
      SquareGrows(size, r);
    }
  }

  lemma FloorMonotone(a: real, b: real)
    requires a <= b
    ensures a.Floor <= b.Floor
  {
  }

  lemma DivideMonotone(a: real, b: real, s: real)
    requires a <= b && s > 0.0
    ensures (a / s).Floor <= (b / s).Floor
  {
    assert a / s <= b / s;
    FloorMonotone(a / s, b / s);
  }

  lemma AxisCovered(center: real, q: real, r: real, wide: real, s: real)
    requires -r <= center - q <= r <= wide && s > 0.0
    ensures ((center - wide) / s).Floor <= (q / s).Floor <= ((center + wide) / s).Floor
  {
    DivideMonotone(center - wide, q, s);
    DivideMonotone(q, center + wide, s);
  }

  /** A ball is inside the box around it. */
  lemma AxesWithin(p: Vec3, q: Vec3, r: real)
    requires r >= 0.0 && Within(p, q, r)
    ensures -r <= p.x - q.x <= r && -r <= p.z - q.z <= r
  {
    var dx, dy, dz := p.x - q.x, p.y - q.y, p.z - q.z;
    SquareNonNegative(dx);
    SquareNonNegative(dy);
    SquareNonNegative(dz);
    ProjectionWithin(dx, dy * dy + dz * dz, r);
    ProjectionWithin(dz, dx * dx + dy * dy, r);
  }

  lemma SquareNonNegative(d: real)
    ensures d * d >= 0.0
  {
  }

  /**
   Covering: wherever an observer passes the exact test, with or without the leave
   margin, the single cell the observer stands in is one of the entity's cells.
   */
  lemma FootprintCovers(limits: Limits, e: Registration, q: Vec3, previous: bool)
    requires limits.cellSize > 0.0 && limits.leaveMargin >= 0.0 && limits.prefetch >= 0.0
    requires ValidBounds(limits, e) && e.routes.spatial.Some?
    requires Within(e.bounds.center, q, EligibleRadius(limits, e, previous))
    ensures CellAt(limits, q.x, q.z) in Footprint(limits, e)
  {
    var c := e.bounds.center;
    var r := EligibleRadius(limits, e, previous);
    AxesWithin(c, q, r);
    var wide := Influence(limits, e);
    AxisCovered(c.x, q.x, r, wide, limits.cellSize);
    AxisCovered(c.z, q.z, r, wide, limits.cellSize);
  }

  /** The span arithmetic counts exactly the cells of the rectangle. */
  lemma {:induction false} RectangleSize(span: Span)
    requires span.low.x <= span.high.x + 1 && span.low.z <= span.high.z + 1
    ensures |Rectangle(span)| == CellCount(span)
    decreases span.high.x - span.low.x
  {
    if span.low.x == span.high.x + 1 {
      assert Rectangle(span) == {};
    } else {
      var rest := Span(span.low, Cell(span.high.x - 1, span.high.z));
      RectangleSize(rest);
      ColumnSize(span.high.x, span.low.z, span.high.z);
      var column := Column(span.high.x, span.low.z, span.high.z);
      assert Rectangle(span) == Rectangle(rest) + column;
      assert Rectangle(rest) !! column;
      assert |Rectangle(span)| == |Rectangle(rest)| + |column|;
    }
  }

  function Column(x: int, low: int, high: int): set<Cell> {
    set z | low <= z <= high :: Cell(x, z)
  }

  lemma {:induction false} ColumnSize(x: int, low: int, high: int)
    requires low <= high + 1
    ensures |Column(x, low, high)| == high - low + 1
    decreases high - low
  {
    if low == high + 1 {
      assert Column(x, low, high) == {};
    } else {
      ColumnSize(x, low, high - 1);
      assert Column(x, low, high) == Column(x, low, high - 1) + {Cell(x, high)};
    }
  }

  /** A validated footprint respects the per-entity cell ceiling. */
  lemma FootprintBounded(limits: Limits, e: Registration)
    requires ValidLimits(limits) && FootprintSpan(limits, e).Ok?
    ensures |Footprint(limits, e)| <= limits.maxCellsPerEntity
  {
    if e.routes.spatial.Some? {
      var c, r := e.bounds.center, Influence(limits, e);
      DivideMonotone(c.x - r, c.x + r, limits.cellSize);
      DivideMonotone(c.z - r, c.z + r, limits.cellSize);
      RectangleSize(InfluenceSpan(limits, e));
    }
  }
}
