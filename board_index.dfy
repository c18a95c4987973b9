/**
  The board index <-> (x, y) bijection of the game, stated once for a board of
  any width and height. Both iterations of the program use the same two
  functions over their own constants: 18 x 20 cells in src/common.rs and
  6 x 6 cells in src/common/constants.rs.

  Coordinates and indices are Rust `usize` values; the model fixes a 64-bit
  target and writes the saturating multiply and add out explicitly.
*/
module BoardIndex {
  import opened Optional

  const USIZE_MAX: int := 0xFFFF_FFFF_FFFF_FFFF

  type usize = n: int | 0 <= n <= USIZE_MAX

  /** `usize::saturating_mul`. */
  function SaturatingMul(a: usize, b: usize): usize {
    if a * b <= USIZE_MAX then a * b else USIZE_MAX
  }

  /** `usize::saturating_add`. */
  function SaturatingAdd(a: usize, b: usize): usize {
    if a + b <= USIZE_MAX then a + b else USIZE_MAX
  }

  /** A board the program can declare: at least one cell in each direction,
      and a cell count (`BOARD_LENGTH`) that is itself a `usize`. */
  predicate ValidDims(width: usize, height: usize) {
    1 <= width && 1 <= height && width * height <= USIZE_MAX
  }

  /** `is_index_on_board`: the index addresses one of the `BOARD_LENGTH` cells. */
  predicate IsIndexOnBoard(width: usize, height: usize, index: usize) {
    index < width * height
  }

  /** `xy_on_board`. */
  predicate XYOnBoard(width: usize, height: usize, x: usize, y: usize) {
    x < width && y < height
  }

  /** `get_board_index`: row-major index of cell (x, y), or None off the board. */
  function GetBoardIndex(width: usize, height: usize, x: usize, y: usize): (r: Option<usize>)
    requires ValidDims(width, height)
    ensures r.Some? <==> XYOnBoard(width, height, x, y)
    ensures r.Some? ==> r.value == y * width + x && IsIndexOnBoard(width, height, r.value)
  {
    if !XYOnBoard(width, height, x, y) then None
    else
      var result := SaturatingAdd(SaturatingMul(y, width), x);
      NoSaturationOnBoard(width, height, x, y);
      if IsIndexOnBoard(width, height, result) then Some(result) else None
  }

  /** `get_board_xy`: the (column, row) of an index, or None off the board. */
  function GetBoardXY(width: usize, height: usize, index: usize): (r: Option<(usize, usize)>)
    requires ValidDims(width, height)
    ensures r.Some? <==> IsIndexOnBoard(width, height, index)
    ensures r.Some? ==> (r.value == (index % width, index / width)
                         && XYOnBoard(width, height, r.value.0, r.value.1))
  {
    if !IsIndexOnBoard(width, height, index) then None
    else
      var result: (usize, usize) := (index % width, index / width);
      RowOfIndexOnBoard(width, height, index);
      if XYOnBoard(width, height, result.0, result.1) then Some(result) else None
  }

  /** `get_board_xy(i).and_then(|(x, y)| get_board_index(x, y))`. */
  function IndexToXYToIndex(width: usize, height: usize, index: usize): Option<usize>
    requires ValidDims(width, height)
  {
    match GetBoardXY(width, height, index)
    case None => None
    case Some(xy) => GetBoardIndex(width, height, xy.0, xy.1)
  }

  /** `get_board_index(x, y).and_then(|i| get_board_xy(i))`. */
  function XYToIndexToXY(width: usize, height: usize, x: usize, y: usize): Option<(usize, usize)>
    requires ValidDims(width, height)
  {
    match GetBoardIndex(width, height, x, y)
    case None => None
    case Some(i) => GetBoardXY(width, height, i)
  }

  lemma MulMonotone(a: int, b: int, c: int)
    requires 0 <= a <= b && 0 <= c
    ensures a * c <= b * c
  {
    assert b * c - a * c == (b - a) * c;
  }

  /** On the board, neither saturating operation of `get_board_index`
      saturates, so its second guard always passes. */
  lemma NoSaturationOnBoard(width: usize, height: usize, x: usize, y: usize)
    requires ValidDims(width, height) && XYOnBoard(width, height, x, y)
    ensures SaturatingMul(y, width) == y * width
    ensures SaturatingAdd(y * width, x) == y * width + x
    ensures IsIndexOnBoard(width, height, y * width + x)
  {
    MulMonotone(y, height - 1, width);
    assert (height - 1) * width == width * height - width;
  }

  /** On the board, the column and row computed by `get_board_xy` are in
      range, so its second guard always passes. */
  lemma RowOfIndexOnBoard(width: usize, height: usize, index: usize)
    requires ValidDims(width, height) && IsIndexOnBoard(width, height, index)
    ensures XYOnBoard(width, height, index % width, index / width)
  {
    var q := index / width;
    assert index == q * width + index % width;
    if q >= height {
      MulMonotone(height, q, width);
      assert false;
    }
  }

  /** Euclidean division by a positive divisor has one quotient and remainder. */
  lemma DivModUnique(n: int, d: int, q: int, r: int)
    requires 0 < d && 0 <= r < d && n == q * d + r
    ensures n / d == q && n % d == r
  {
    var q', r' := n / d, n % d;
    assert n == q' * d + r';
    assert (q - q') * d == r' - r;
    if q > q' {
      MulMonotone(1, q - q', d);
      assert false;
    } else if q < q' {
      MulMonotone(1, q' - q, d);
      assert false;
    }
  }

  /** Index -> (x, y) -> index gives the index back exactly when it is on the
      board, and None otherwise. */
  lemma IndexRoundTrip(width: usize, height: usize, index: usize)
    requires ValidDims(width, height)
    ensures IndexToXYToIndex(width, height, index)
            == if IsIndexOnBoard(width, height, index) then Some(index) else None
  {
    if IsIndexOnBoard(width, height, index) {
      assert index == (index / width) * width + index % width;
    }
  }

  /** (x, y) -> index -> (x, y) gives the pair back exactly when it is on the
      board, and None otherwise. */
  lemma XYRoundTrip(width: usize, height: usize, x: usize, y: usize)
    requires ValidDims(width, height)
    ensures XYToIndexToXY(width, height, x, y)
            == if XYOnBoard(width, height, x, y) then Some((x, y)) else None
  {
    if XYOnBoard(width, height, x, y) {
      DivModUnique(y * width + x, width, y, x);
    }
  }
}
