/**
  The layout constants of the later iteration (src/common/constants.rs):
  32-pixel cells on a 6 x 6 board with `u8` board coordinates, a one-pixel
  grid line before every cell and a HUD strip filling the rest of the screen.
*/
module Constants {
  import opened Optional
  import BoardIndex

  type usize = BoardIndex.usize

  /** `BoardCoord = u8`. */
  type BoardCoord = n: int | 0 <= n < 0x100

  // in cells
  const BOARD_WIDTH: BoardCoord := 6
  const BOARD_HEIGHT: BoardCoord := 6

  const BOARD_LENGTH: usize := BOARD_WIDTH as usize * BOARD_HEIGHT as usize

  // in pixels
  const SCREEN_WIDTH: usize := 256
  const SCREEN_HEIGHT: usize := 240

  const BLUE: bv32 := 0xFFEE2222
  const GREEN: bv32 := 0xFF22EE33
  const RED: bv32 := 0xFF2222EE
  const YELLOW: bv32 := 0xFF33CCCC
  const FLOOR: bv32 := 0xFF104010

  // in pixels
  const CELL_WIDTH: usize := 32
  const CELL_HEIGHT: usize := 32
  const CELL_DIAMETER: usize := CELL_WIDTH
  const CELL_RADIUS: usize := CELL_DIAMETER / 2

  // a spacer pixel after the last cell
  const HUD_LEFT_EDGE: usize := ((BOARD_WIDTH as usize) * (CELL_WIDTH + 1) + 1) + 1
  // `usize` subtraction: the type of the constant demands HUD_LEFT_EDGE <= SCREEN_WIDTH
  const HUD_WIDTH: usize := SCREEN_WIDTH - HUD_LEFT_EDGE

  /** The board is square, 6 x 6 = 36 cells, and every coordinate on it, as
      well as the board dimensions themselves, fits in a `BoardCoord`. */
  lemma BoardSize()
    ensures BOARD_WIDTH == BOARD_HEIGHT == 6
    ensures BOARD_LENGTH == 36 == BOARD_WIDTH * BOARD_HEIGHT
    ensures BOARD_WIDTH < 0x100 && BOARD_HEIGHT < 0x100
    ensures BoardIndex.ValidDims(BOARD_WIDTH, BOARD_HEIGHT)
  {
  }

  /** Cells are square; the radius is half the diameter. */
  lemma CellGeometry()
    ensures CELL_DIAMETER == CELL_WIDTH == CELL_HEIGHT == 32
    ensures CELL_RADIUS == 16 && 2 * CELL_RADIUS == CELL_DIAMETER
  {
  }

  /** Each cell takes its width plus one grid line; one leading pixel and one
      spacer pixel follow, so the HUD starts at pixel 200 and its 56-pixel
      strip ends exactly at the right edge of the screen. */
  lemma HudLayout()
    ensures HUD_LEFT_EDGE == BOARD_WIDTH * (CELL_WIDTH + 1) + 2 == 200
    ensures HUD_LEFT_EDGE <= SCREEN_WIDTH
    ensures HUD_WIDTH == 56 && HUD_LEFT_EDGE + HUD_WIDTH == SCREEN_WIDTH
  {
  }

  /** Every named colour is fully opaque: its alpha byte is 0xFF. */
  lemma ColoursOpaque()
    ensures BLUE >> 24 == GREEN >> 24 == RED >> 24 == YELLOW >> 24 == FLOOR >> 24 == 0xFF
  {
  }

  /** The board bijection on the 6 x 6 board: both round trips hold for
      every index and every coordinate pair. */
  lemma BoardRoundTrips(i: usize, x: usize, y: usize)
    ensures BoardIndex.IndexToXYToIndex(BOARD_WIDTH, BOARD_HEIGHT, i)
            == if i < BOARD_LENGTH then Some(i) else None
    ensures BoardIndex.XYToIndexToXY(BOARD_WIDTH, BOARD_HEIGHT, x, y)
            == if x < BOARD_WIDTH && y < BOARD_HEIGHT then Some((x, y)) else None
  {
  }
}
