/**
 * The sprite-sheet grid: a frame index names one cell of a rows x cols
 * sheet, and each cell owns one sub-rectangle of texture space.
 */
module SpriteGrid {

  /** A sprite sheet laid out as `rows` x `cols` equally sized cells. */
  datatype Grid = Grid(rows: int, cols: int) {
    predicate Valid() { rows > 0 && cols > 0 }

    /** Number of animation frames the sheet holds. */
    function Frames(): int { rows * cols }
  }

  /** The sheet both snow layers use: 8 rows of 16 columns. */
  const SnowSheet := Grid(8, 16)

  datatype Cell = Cell(row: int, col: int)

  predicate ValidFrame(g: Grid, f: int) {
    0 <= f < g.Frames()
  }

  predicate ValidCell(g: Grid, c: Cell) {
    0 <= c.row < g.rows && 0 <= c.col < g.cols
  }

  /** Frame to (row, col): `Row = frame / COLS`, `Col = frame % COLS`. */
  function CellOf(g: Grid, f: int): (c: Cell)
    requires g.Valid() && ValidFrame(g, f)
    ensures ValidCell(g, c)
    ensures f == c.row * g.cols + c.col
  {
    var c := Cell(f / g.cols, f % g.cols);
    RowBound(f, g.rows, g.cols);
    c
  }

  /** Row-major numbering of a cell; the inverse of CellOf. */
  function FrameOf(g: Grid, c: Cell): (f: int)
    requires g.Valid() && ValidCell(g, c)
    ensures ValidFrame(g, f)
  {
    RowMajorBound(c.row, c.col, g.rows, g.cols);
    c.row * g.cols + c.col
  }

  lemma RowBound(f: int, rows: int, cols: int)
    requires rows > 0 && cols > 0 && 0 <= f < rows * cols
    ensures 0 <= f / cols < rows
  {
    var q := f / cols;
    assert q * cols <= f;
    assert (rows - q) * cols == rows * cols - q * cols;
    PositiveFactor(rows - q, cols);
  }

  lemma PositiveFactor(x: int, c: int)
    requires c > 0 && x * c > 0
    ensures x > 0
  {
  }

  lemma SmallMultiple(x: int, c: int)
    requires c > 0 && -c < x * c < c
    ensures x == 0
  {
  }

  lemma RowMajorBound(row: int, col: int, rows: int, cols: int)
    requires 0 <= row < rows && 0 <= col < cols
    ensures 0 <= row * cols + col < rows * cols
  {
    assert row * cols <= (rows - 1) * cols;
  }

  /** Division by a positive divisor recovers the row of a row-major index. */
  lemma DivModUnique(row: int, col: int, cols: int)
    requires cols > 0 && 0 <= col < cols
    ensures (row * cols + col) / cols == row
    ensures (row * cols + col) % cols == col
  {
    var n := row * cols + col;
    var q, r := n / cols, n % cols;
    assert (row - q) * cols == r - col;
    SmallMultiple(row - q, cols);
  }

  /** Every frame survives the trip through its cell. */
  lemma FrameCellFrame(g: Grid, f: int)
    requires g.Valid() && ValidFrame(g, f)
    ensures FrameOf(g, CellOf(g, f)) == f
  {
  }

  /** Every cell survives the trip through its frame, so CellOf is onto. */
  lemma {:induction false} CellFrameCell(g: Grid, c: Cell)
    requires g.Valid() && ValidCell(g, c)
    ensures CellOf(g, FrameOf(g, c)) == c
  {
    DivModUnique(c.row, c.col, g.cols);
  }

  /** CellOf is one-to-one on the valid frames. */
  lemma CellOfInjective(g: Grid, f1: int, f2: int)
    requires g.Valid() && ValidFrame(g, f1) && ValidFrame(g, f2)
    requires CellOf(g, f1) == CellOf(g, f2)
    ensures f1 == f2
  {
    FrameCellFrame(g, f1);
    FrameCellFrame(g, f2);
  }

  /** A point or a vector of texture space. */
  datatype Vec2 = Vec2(x: real, y: real)

  /** The texture-space rectangle [u0, u1] x [v0, v1]. */
  datatype UvRect = UvRect(u0: real, v0: real, u1: real, v1: real)

  /** `uvOffset`: the lower corner of the rectangle. */
  function UvOffset(r: UvRect): Vec2 {
    Vec2(r.u0, r.v0)
  }

  /** `uvScale`: the extent of the rectangle, (U1 - U0, V1 - V0). */
  function UvScale(r: UvRect): Vec2 {
    Vec2(r.u1 - r.u0, r.v1 - r.v0)
  }

  lemma QuotientMonotone(a: int, b: int, d: int)
    requires d > 0 && a <= b
    ensures a as real / d as real <= b as real / d as real
  {
    assert b as real / d as real - a as real / d as real == (b - a) as real / d as real;
  }

  lemma QuotientStep(a: int, d: int)
    requires d > 0
    ensures (a + 1) as real / d as real - a as real / d as real == 1.0 / d as real
  {
  }

  lemma UnitQuotient(d: int)
    requires d > 0
    ensures d as real / d as real == 1.0
    ensures 1.0 / d as real > 0.0
    ensures 0 as real / d as real == 0.0
  {
  }

  /** The rectangle of frame `f`: [Col/COLS, (Col+1)/COLS] x [Row/ROWS, (Row+1)/ROWS]. */
  function FrameRect(g: Grid, f: int): (r: UvRect)
    requires g.Valid() && ValidFrame(g, f)
    ensures r.u1 - r.u0 == 1.0 / g.cols as real
    ensures r.v1 - r.v0 == 1.0 / g.rows as real
    ensures 0.0 <= r.u0 < r.u1 <= 1.0
    ensures 0.0 <= r.v0 < r.v1 <= 1.0
    ensures UvScale(r) == Vec2(1.0 / g.cols as real, 1.0 / g.rows as real)
  {
    var c := CellOf(g, f);
    var R := UvRect(c.col as real / g.cols as real, c.row as real / g.rows as real,
                    (c.col + 1) as real / g.cols as real, (c.row + 1) as real / g.rows as real);
    QuotientStep(c.col, g.cols);
    QuotientStep(c.row, g.rows);
    QuotientMonotone(0, c.col, g.cols);
    QuotientMonotone(c.col + 1, g.cols, g.cols);
    QuotientMonotone(0, c.row, g.rows);
    QuotientMonotone(c.row + 1, g.rows, g.rows);
    UnitQuotient(g.cols);
    UnitQuotient(g.rows);
    R
  }

  /** Two rectangles that share at most an edge. */
  predicate NonOverlapping(a: UvRect, b: UvRect) {
    a.u1 <= b.u0 || b.u1 <= a.u0 || a.v1 <= b.v0 || b.v1 <= a.v0
  }

  /** Distinct frames sample non-overlapping parts of the sheet. */
  lemma DistinctFramesDisjoint(g: Grid, f1: int, f2: int)
    requires g.Valid() && ValidFrame(g, f1) && ValidFrame(g, f2) && f1 != f2
    ensures NonOverlapping(FrameRect(g, f1), FrameRect(g, f2))
  {
    var c1, c2 := CellOf(g, f1), CellOf(g, f2);
    if c1.col < c2.col {
      QuotientMonotone(c1.col + 1, c2.col, g.cols);
    } else if c2.col < c1.col {
      QuotientMonotone(c2.col + 1, c1.col, g.cols);
    } else if c1.row < c2.row {
      QuotientMonotone(c1.row + 1, c2.row, g.rows);
    } else {
      assert c2.row < c1.row;
      QuotientMonotone(c2.row + 1, c1.row, g.rows);
    }
  }

  /** The half-open rectangle [u0, u1) x [v0, v1) contains (u, v). */
  predicate Covers(r: UvRect, u: real, v: real) {
    r.u0 <= u < r.u1 && r.v0 <= v < r.v1
  }

  lemma FloorCell(x: real, n: int) returns (k: int)
    requires n > 0 && 0.0 <= x < 1.0
    ensures 0 <= k < n
    ensures k as real / n as real <= x < (k + 1) as real / n as real
  {
    k := (x * n as real).Floor;
    assert k as real <= x * n as real < k as real + 1.0;
    assert k as real / n as real <= x;
    assert x < (k + 1) as real / n as real;
    assert x * n as real < n as real;
  }

  /** The frame rectangles tile the unit square: every point lies in exactly one. */
  lemma Tiling(g: Grid, u: real, v: real)
    requires g.Valid() && 0.0 <= u < 1.0 && 0.0 <= v < 1.0
    ensures exists f :: ValidFrame(g, f) && Covers(FrameRect(g, f), u, v)
    ensures forall f1, f2 ::
              (ValidFrame(g, f1) && ValidFrame(g, f2) &&
               Covers(FrameRect(g, f1), u, v) && Covers(FrameRect(g, f2), u, v)) ==> f1 == f2
  {
    var col := FloorCell(u, g.cols);
    var row := FloorCell(v, g.rows);
    var f := FrameOf(g, Cell(row, col));
    CellFrameCell(g, Cell(row, col));
    assert Covers(FrameRect(g, f), u, v);
    forall f1, f2 | ValidFrame(g, f1) && ValidFrame(g, f2) &&
                    Covers(FrameRect(g, f1), u, v) && Covers(FrameRect(g, f2), u, v)
      ensures f1 == f2
    {
      if f1 != f2 {
        DistinctFramesDisjoint(g, f1, f2);
      }
    }
  }

  /** The closed rectangle [u0, u1] x [v0, v1] contains p. */
  predicate InClosedRect(r: UvRect, p: Vec2) {
    r.u0 <= p.x <= r.u1 && r.v0 <= p.y <= r.v1
  }

  /** The snow fragment shader's lookup: `TexCoord * uvScale + uvOffset`. */
  function ShaderLookup(t: Vec2, offset: Vec2, scale: Vec2): Vec2 {
    Vec2(t.x * scale.x + offset.x, t.y * scale.y + offset.y)
  }

  /** The lookup under the uniforms of rectangle `r`. */
  function SampleCoord(t: Vec2, r: UvRect): Vec2 {
    ShaderLookup(t, UvOffset(r), UvScale(r))
  }

  /** The quad's texture coordinates [0,1]^2 land inside the rectangle, corner to corner. */
  lemma SampleStaysInRect(t: Vec2, r: UvRect)
    requires r.u0 < r.u1 && r.v0 < r.v1
    requires 0.0 <= t.x <= 1.0 && 0.0 <= t.y <= 1.0
    ensures InClosedRect(r, SampleCoord(t, r))
    ensures SampleCoord(Vec2(0.0, 0.0), r) == Vec2(r.u0, r.v0)
    ensures SampleCoord(Vec2(1.0, 1.0), r) == Vec2(r.u1, r.v1)
  {
    Interpolate(t.x, r.u0, r.u1);
    Interpolate(t.y, r.v0, r.v1);
  }

  /** Hence the snow layers sample only the current frame's cell of the sheet. */
  lemma SampleStaysInFrame(g: Grid, f: int, t: Vec2)
    requires g.Valid() && ValidFrame(g, f)
    requires 0.0 <= t.x <= 1.0 && 0.0 <= t.y <= 1.0
    ensures InClosedRect(FrameRect(g, f), SampleCoord(t, FrameRect(g, f)))
  {
    var r := FrameRect(g, f);
    SampleStaysInRect(t, r);
  }

  lemma Interpolate(t: real, a: real, b: real)
    requires 0.0 <= t <= 1.0 && a < b
    ensures a <= t * (b - a) + a <= b
  {
    assert t * (b - a) <= 1.0 * (b - a);
  }
}
