/** The drawing of a scannable code: its squares, row by row, and their size.

    Lengths are in pixels, as real numbers; a size floored to hundredths is a
    whole number of them.
  */
module Layout {
  import opened Sequences

  const QUIET_ZONE_SQUARES := 4

  datatype Code = Code(width: nat, modules: seq<bool>)

  datatype Drawing = Drawing(squareSize: real, quietZone: real, rows: seq<seq<bool>>, side: real)

  datatype Result = Drawn(drawing: Drawing) | Refused

  /** A code read row by row: `rows[y][x]` is square `y * width + x`. */
  ghost predicate RowMajor(code: Code, rows: seq<seq<bool>>, n: nat)
    requires n * code.width <= |code.modules|
  {
    && |rows| == n
    && (forall y :: 0 <= y < n ==> |rows[y]| == code.width)
    && Flatten(rows) == code.modules[..n * code.width]
  }

  lemma NextRow(n: nat, width: nat)
    ensures (n + 1) * width == n * width + width
  {}

  lemma RowsWithin(n: nat, width: nat)
    requires n <= width
    ensures n * width <= width * width
  {}

  /** One row. */
  method Row(code: Code, y: nat) returns (cells: seq<bool>)
    requires y * code.width + code.width <= |code.modules|
    ensures cells == code.modules[y * code.width..y * code.width + code.width]
  {
    cells := [];
    var start := y * code.width;
    for x := 0 to code.width
      invariant cells == code.modules[start..start + x]
    {
      cells := cells + [code.modules[start + x]];
    }
  }

  /** `Math.floor(v * 100) / 100` */
  function Floored(v: real): real { (v * 100.0).Floor as real / 100.0 }

  /** The squares, row by row. */
  method Rows(code: Code) returns (rows: seq<seq<bool>>)
    requires |code.modules| == code.width * code.width
    ensures |rows| == code.width && Flatten(rows) == code.modules
    ensures forall y :: 0 <= y < |rows| ==> |rows[y]| == code.width
  {
    rows := [];
    for y := 0 to code.width
      invariant y * code.width <= code.width * code.width && RowMajor(code, rows, y)
    {
      NextRow(y, code.width);
      RowsWithin(y + 1, code.width);
      var cells := Row(code, y);
      FlattenMore(rows, cells);
      TakeMore(code.modules, y * code.width, (y + 1) * code.width);
      rows := rows + [cells];
    }
    assert code.modules[..code.width * code.width] == code.modules;
  }

  /** Square `x` of row `y` is the code's `y * width + x`th. */
  predicate SquareShows(rows: seq<seq<bool>>, code: Code, y: nat, x: nat)
    requires y < |rows| && x < |rows[y]|
  {
    y * code.width + x < |code.modules| && rows[y][x] == code.modules[y * code.width + x]
  }

  /** Whether the squares of a drawing are the code's, row by row. */
  ghost predicate Shows(rows: seq<seq<bool>>, code: Code)
  {
    && |rows| == code.width && (forall y :: 0 <= y < code.width ==> |rows[y]| == code.width)
    && forall x, y :: 0 <= x < code.width && 0 <= y < code.width ==> SquareShows(rows, code, y, x)
  }

  lemma RowsShow(rows: seq<seq<bool>>, code: Code)
    requires |rows| == code.width && Flatten(rows) == code.modules
    requires forall y :: 0 <= y < |rows| ==> |rows[y]| == code.width
    ensures Shows(rows, code)
  {
    forall x, y | 0 <= x < code.width && 0 <= y < code.width ensures SquareShows(rows, code, y, x) {
      SquareAt(code, rows, y, x);
    }
  }

  /** A size for a code's squares: a whole number of hundredths of a pixel, and
      the largest for which the code and four squares on each side of it fit. */
  ghost predicate Fits(size: real, width: nat, available: real)
  {
    && Hundredths(size) && (width + 8) as real * size <= available
    && forall larger: real :: Hundredths(larger) && (width + 8) as real * larger <= available ==> larger <= size
  }

  /** Lays a code out, or refuses one whose squares are not as many as its width
      says. */
  method Lay(code: Code, available: real) returns (r: Result)
    ensures r.Refused? <==> |code.modules| != code.width * code.width
    ensures r.Drawn? ==> Shows(r.drawing.rows, code)
    ensures r.Drawn? ==> Fits(r.drawing.squareSize, code.width, available)
    ensures r.Drawn? ==> r.drawing.quietZone == 4.0 * r.drawing.squareSize
    ensures r.Drawn? ==> r.drawing.side == 2.0 * r.drawing.quietZone + code.width as real * r.drawing.squareSize
    ensures r.Drawn? ==> r.drawing.side <= available < r.drawing.side + (code.width + 8) as real * 0.01
  {
    if |code.modules| != code.width * code.width {
      return Refused;
    }
    var squares := code.width + QUIET_ZONE_SQUARES * 2;
    var squareSize := Floored(available / squares as real);
    var rows := Rows(code);
    RowsShow(rows, code);
    FlooredBound(available, squares);
    FlooredFits(available, code.width);
    Zones(squareSize, code.width);
    r := Drawn(Drawing(squareSize, squareSize * QUIET_ZONE_SQUARES as real, rows, squareSize * squares as real));
  }

  /** In a drawing row by row, square `x` of row `y` is `y * width + x`. */
  lemma {:induction false} SquareAt(code: Code, rows: seq<seq<bool>>, y: nat, x: nat)
    requires |rows| <= code.width && (forall k :: 0 <= k < |rows| ==> |rows[k]| == code.width)
    requires Flatten(rows) <= code.modules && y < |rows| && x < code.width
    ensures |Flatten(rows)| == |rows| * code.width
    ensures y * code.width + x < |code.modules| && rows[y][x] == code.modules[y * code.width + x]
  {
    var n := |rows| - 1;
    var front := rows[..n];
    FlatLength(front, code.width);
    NextRow(n, code.width);
    if y == n {
      assert Flatten(rows)[n * code.width + x] == rows[n][x];
    } else {
      SquareAt(code, front, y, x);
    }
  }

  lemma {:induction false} FlatLength(rows: seq<seq<bool>>, width: nat)
    requires forall k :: 0 <= k < |rows| ==> |rows[k]| == width
    ensures |Flatten(rows)| == |rows| * width
  {
    if rows != [] {
      FlatLength(rows[..|rows| - 1], width);
      NextRow(|rows| - 1, width);
    }
  }

  /** A whole number of hundredths of a pixel. */
  predicate Hundredths(size: real) { (size * 100.0).Floor as real == size * 100.0 }

  /** Flooring yields the largest whole number of hundredths that fits. */
  lemma FlooredFits(available: real, width: nat)
    ensures Fits(Floored(available / (width + 8) as real), width, available)
  {
    var n := (width + 8) as real;
    var v := available / n;
    FlooredBound(available, width + 8);
    FlooredHundredths(v);
    forall larger: real | Hundredths(larger) && n * larger <= available ensures larger <= Floored(v) {
      Quotient(n, larger, available);
      LargestHundredths(v, larger);
    }
  }

  lemma FlooredHundredths(v: real)
    ensures Hundredths(Floored(v))
  {
    assert Floored(v) * 100.0 == (v * 100.0).Floor as real;
  }

  lemma LargestHundredths(v: real, larger: real)
    requires Hundredths(larger) && larger <= v
    ensures larger <= Floored(v)
  {
    assert (larger * 100.0).Floor <= (v * 100.0).Floor;
  }

  lemma Scale(n: real, a: real, b: real)
    requires n > 0.0 && a < b
    ensures n * a < n * b
  {
    assert n * (b - a) > 0.0;
  }

  lemma Quotient(n: real, size: real, available: real)
    requires n > 0.0 && n * size <= available
    ensures size <= available / n
  {
    var v := available / n;
    assert n * v == available;
    if v < size {
      Scale(n, v, size);
    }
  }

  /** The side is two quiet zones and the code between them. */
  lemma Zones(size: real, width: nat)
    ensures size * (width + QUIET_ZONE_SQUARES * 2) as real == 2.0 * (size * QUIET_ZONE_SQUARES as real) + width as real * size
  {
    var w := width as real;
    assert (width + QUIET_ZONE_SQUARES * 2) as real == w + 8.0;
    assert size * (w + 8.0) == size * w + size * 8.0;
  }

  /** Flooring gives away less than a hundredth of a pixel a square, and never
      draws wider than there is room for. */
  lemma FlooredBound(available: real, squares: nat)
    requires squares > 0
    ensures var size, n := Floored(available / squares as real), squares as real;
      size * n <= available < size * n + n * 0.01
  {
    var n := squares as real;
    var v := available / n;
    var size := Floored(v);
    FloorBound(v);
    assert v * n == available;
    MultiplyThrough(size, v, n, available);
  }

  lemma FloorBound(v: real)
    ensures Floored(v) <= v < Floored(v) + 0.01
  {
    var k := (v * 100.0).Floor as real;
    assert k <= v * 100.0 < k + 1.0;
  }

  lemma MultiplyThrough(a: real, v: real, n: real, product: real)
    requires a <= v < a + 0.01 && n > 0.0 && product == v * n
    ensures a * n <= product < a * n + n * 0.01
  {
    var low, high := v - a, a + 0.01 - v;
    assert low * n >= 0.0 && high * n > 0.0;
    assert low * n == v * n - a * n;
    assert high * n == a * n + 0.01 * n - v * n;
  }
}
