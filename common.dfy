/**
  The early iteration of the game (src/common.rs): 12-pixel cells on an
  18 x 20 board, a 16-bit 4-4-4-4 framebuffer that the host expands to 32-bit
  8-8-8-8 pixels, and the NES-style button bit set.
*/
module Common {
  import opened Optional
  import BoardIndex

  type usize = BoardIndex.usize
  type u8 = n: int | 0 <= n < 0x100

  // in pixels
  const SCREEN_WIDTH: usize := 256
  const SCREEN_HEIGHT: usize := 240
  const SCREEN_PIXELS: usize := 256 * 240

  const CELL_WIDTH: usize := SCREEN_WIDTH / 20
  const CELL_HEIGHT: usize := SCREEN_HEIGHT / 20
  const HUD_WIDTH: usize := 40

  // in cells
  const BOARD_WIDTH: usize := (SCREEN_WIDTH - HUD_WIDTH) / CELL_WIDTH
  const BOARD_HEIGHT: usize := SCREEN_HEIGHT / CELL_HEIGHT
  const BOARD_LENGTH: usize := (BoardDims(); BOARD_WIDTH * BOARD_HEIGHT)

  /** 216 pixels of board width hold 18 cells, 240 of height hold 20. */
  lemma BoardDims()
    ensures CELL_WIDTH == CELL_HEIGHT == 12
    ensures BOARD_WIDTH == 18 && BOARD_HEIGHT == 20
  {
  }

  /** The derived layout of this iteration. */
  lemma Layout()
    ensures CELL_WIDTH == CELL_HEIGHT == 12
    ensures BOARD_WIDTH == 18 && BOARD_HEIGHT == 20 && BOARD_LENGTH == 360
    ensures BOARD_WIDTH * CELL_WIDTH + HUD_WIDTH <= SCREEN_WIDTH
    ensures BOARD_HEIGHT * CELL_HEIGHT == SCREEN_HEIGHT
    ensures BoardIndex.ValidDims(BOARD_WIDTH, BOARD_HEIGHT)
  {
  }

  // ---------------------------------------------------------------------
  // Board indices, with this iteration's constants

  predicate IsIndexOnBoard(index: usize) {
    BoardIndex.IsIndexOnBoard(BOARD_WIDTH, BOARD_HEIGHT, index)
  }

  predicate XYOnBoard(x: usize, y: usize) {
    BoardIndex.XYOnBoard(BOARD_WIDTH, BOARD_HEIGHT, x, y)
  }

  function GetBoardIndex(x: usize, y: usize): (r: Option<usize>)
    ensures r == if x < 18 && y < 20 then Some(y * 18 + x) else None
  {
    Layout();
    BoardIndex.GetBoardIndex(BOARD_WIDTH, BOARD_HEIGHT, x, y)
  }

  function GetBoardXY(index: usize): (r: Option<(usize, usize)>)
    ensures r == if index < 360 then Some((index % 18, index / 18)) else None
  {
    Layout();
    BoardIndex.GetBoardXY(BOARD_WIDTH, BOARD_HEIGHT, index)
  }

  /** The `i_xy_i` property of the board tests, on the 18 x 20 board. */
  lemma IndexXYIndex(i: usize)
    ensures (match GetBoardXY(i) case None => None case Some(xy) => GetBoardIndex(xy.0, xy.1))
            == if IsIndexOnBoard(i) then Some(i) else None
  {
  }

  /** The `xy_i_xy` property of the board tests, on the 18 x 20 board. */
  lemma XYIndexXY(x: usize, y: usize)
    ensures (match GetBoardIndex(x, y) case None => None case Some(i) => GetBoardXY(i))
            == if XYOnBoard(x, y) then Some((x, y)) else None
  {
    Layout();
    BoardIndex.XYRoundTrip(BOARD_WIDTH, BOARD_HEIGHT, x, y);
  }

  // ---------------------------------------------------------------------
  // Buttons: the bit values of the NES input register

  const A: bv8 := 1 << 0
  const B: bv8 := 1 << 1
  const SELECT: bv8 := 1 << 2
  const START: bv8 := 1 << 3
  const UP: bv8 := 1 << 4
  const DOWN: bv8 := 1 << 5
  const LEFT: bv8 := 1 << 6
  const RIGHT: bv8 := 1 << 7

  /** The bit-flag subset test: every bit of `flags` is set in `mask`. */
  predicate Contains(mask: bv8, flags: bv8) {
    mask & flags == flags
  }

  /** The eight buttons are eight distinct single bits that fill the byte, so
      a mask contains a button exactly when that button's bit is set, and
      testing a union tests each member. */
  lemma ButtonBits(mask: bv8, f: bv8, g: bv8)
    ensures A == 1 && B == 2 && SELECT == 4 && START == 8
    ensures UP == 16 && DOWN == 32 && LEFT == 64 && RIGHT == 128
    ensures A | B | SELECT | START | UP | DOWN | LEFT | RIGHT == 0xFF
    ensures Contains(mask, f | g) <==> Contains(mask, f) && Contains(mask, g)
    ensures Contains(mask, 0) && Contains(0xFF, f)
  {
  }

  // ---------------------------------------------------------------------
  // Pixels

  /** `beside`: a nibble written twice, side by side, fills a byte. */
  function Beside(x: bv32): (r: bv32)
    requires x <= 0xF
    ensures r == 17 * x
  {
    x | (x << 4)
  }

  /** The j-th 4-bit channel of a 4-4-4-4 pixel (0 = red ... 3 = alpha). */
  function Nibble(pixel: bv16, j: nat): (r: bv16)
    requires j < 4
    ensures r <= 0xF
  {
    (pixel >> (4 * j)) & 0xF
  }

  /** The j-th byte of an 8-8-8-8 pixel. */
  function Byte(pixel: bv32, j: nat): (r: bv32)
    requires j < 4
    ensures r <= 0xFF
  {
    (pixel >> (8 * j)) & 0xFF
  }

  /** One iteration of the loop of `State::framebuffer`. */
  function ExpandPixel(pixel: bv16): bv32 {
    var r := Beside(((pixel & 0x000F) >> 0) as bv32);
    var g := Beside(((pixel & 0x00F0) >> 4) as bv32);
    var b := Beside(((pixel & 0x0F00) >> 8) as bv32);
    var a := Beside(((pixel & 0xF000) >> 12) as bv32);
    r | (g << 8) | (b << 16) | (a << 24)
  }

  /** The reverse conversion: keep the high nibble of every byte. */
  function PackPixel(pixel: bv32): bv16 {
    (((pixel >> 4) & 0xF)
      | (((pixel >> 8) & 0xF0))
      | (((pixel >> 12) & 0xF00))
      | (((pixel >> 16) & 0xF000))) as bv16
  }

  /** Every output byte is its input nibble repeated, i.e. 17 times it:
      red, green, blue and alpha in turn. */
  lemma ExpandPixelBytes(pixel: bv16)
    ensures Byte(ExpandPixel(pixel), 0) == 17 * (Nibble(pixel, 0) as bv32)
    ensures Byte(ExpandPixel(pixel), 1) == 17 * (Nibble(pixel, 1) as bv32)
    ensures Byte(ExpandPixel(pixel), 2) == 17 * (Nibble(pixel, 2) as bv32)
    ensures Byte(ExpandPixel(pixel), 3) == 17 * (Nibble(pixel, 3) as bv32)
  {
  }

  /** Black stays black and white stays white. */
  lemma ExpandPixelExtremes()
    ensures ExpandPixel(0x0000) == 0
    ensures ExpandPixel(0xFFFF) == 0xFFFF_FFFF
  {
  }

  /** Expansion loses nothing: packing the expanded pixel gives it back. */
  lemma ExpandPixelRoundTrip(pixel: bv16)
    ensures PackPixel(ExpandPixel(pixel)) == pixel
  {
  }

  // ---------------------------------------------------------------------
  // Framebuffer and state

  /** The early framebuffer: a vector of 4-4-4-4 pixels. */
  class Framebuffer {
    var buffer: seq<bv16>

    /** `Framebuffer::default` (and `Framebuffer::new`, which calls it): an
        empty vector resized to one zero pixel per screen pixel. */
    constructor ()
      ensures |buffer| == SCREEN_PIXELS
      ensures forall i :: 0 <= i < |buffer| ==> buffer[i] == 0
    {
      var v: seq<bv16> := [];
      v := v + seq(SCREEN_PIXELS - |v|, _ => 0);
      buffer := v;
    }

    /** `PartialEq::eq`: two framebuffers are equal when their buffers are the
        same length and agree pixel by pixel. */
    function Equals(other: Framebuffer): (r: bool)
      reads this, other
      ensures r <==> |buffer| == |other.buffer|
                     && forall i :: 0 <= i < |buffer| ==> buffer[i] == other.buffer[i]
    {
      buffer[..] == other.buffer[..]
    }

    /** `rainbow`: pixel i becomes `i + x - 2y`, truncated to 16 bits. The
        `usize` subtraction panics at i = 0 when 2y > x, so a non-empty buffer
        needs 2y <= x. */
    method Rainbow(x: u8, y: u8)
      requires |buffer| > 0 ==> 2 * y <= x
      modifies this
      ensures |buffer| == old(|buffer|)
      ensures forall i :: 0 <= i < |buffer| ==> buffer[i] == RainbowPixel(i, x, y)
    {
      for i := 0 to |buffer|
        invariant |buffer| == old(|buffer|)
        invariant forall k :: 0 <= k < i ==> buffer[k] == RainbowPixel(k, x, y)
      {
        buffer := buffer[i := ((i + x - (y * 2)) % 0x1_0000) as bv16];
      }
    }
  }

  /** The value `rainbow(x, y)` writes at pixel i. */
  function RainbowPixel(i: nat, x: u8, y: u8): bv16
    requires 2 * y <= x
  {
    ((i + x - 2 * y) % 0x1_0000) as bv16
  }

  /** The 16-bit truncation makes the rainbow repeat every 2^16 pixels. */
  lemma RainbowPeriodic(i: nat, x: u8, y: u8)
    requires 2 * y <= x
    ensures RainbowPixel(i + 0x1_0000, x, y) == RainbowPixel(i, x, y)
  {
    assert (i + 0x1_0000 + x - 2 * y) % 0x1_0000 == (i + x - 2 * y) % 0x1_0000;
  }

  /** `PartialEq` together with `Eq`: an equivalence relation. */
  lemma EqualsIsEquivalence(a: Framebuffer, b: Framebuffer, c: Framebuffer)
    ensures a.Equals(a)
    ensures a.Equals(b) ==> b.Equals(a)
    ensures a.Equals(b) && b.Equals(c) ==> a.Equals(c)
  {
  }

  type Piece = bool

  /** The early game state: a cursor position and a board of optional pieces. */
  datatype GameState = GameState(x: u8, y: u8, board: seq<Option<Piece>>)

  /** `GameState::new`: the cursor at (128, 120) and every cell empty. */
  function NewGameState(): (g: GameState)
    ensures g.x == 128 && g.y == 120
    ensures |g.board| == BOARD_LENGTH && forall i :: 0 <= i < |g.board| ==> g.board[i] == None
  {
    GameState(128, 120, seq(BOARD_LENGTH, _ => None))
  }

  class State {
    var framebuffer: Framebuffer
    var gamepad: bv8
    var gameState: GameState

    /** `State::new`: a fresh zeroed framebuffer, no button held. */
    constructor ()
      ensures fresh(framebuffer)
      ensures |framebuffer.buffer| == SCREEN_PIXELS
      ensures forall i :: 0 <= i < SCREEN_PIXELS ==> framebuffer.buffer[i] == 0
      ensures gamepad == 0 && gameState == NewGameState()
    {
      framebuffer := new Framebuffer();
      gamepad := 0;
      gameState := NewGameState();
    }

    /** `State::framebuffer`: expands the pixels of the 16-bit buffer into the
        host's 32-bit buffer, pairing them up as `zip` does, so that only the
        first min(input length, output length) output pixels are written. */
    method ExportFramebuffer(out: array<bv32>)
      requires out.Length == SCREEN_PIXELS
      modifies out
      ensures forall k :: 0 <= k < out.Length && k < |framebuffer.buffer| ==>
                out[k] == ExpandPixel(framebuffer.buffer[k])
      ensures forall k :: |framebuffer.buffer| <= k < out.Length ==> out[k] == old(out[k])
    {
      var input := framebuffer.buffer;
      var n := if |input| < out.Length then |input| else out.Length;
      for k := 0 to n
        invariant forall j :: 0 <= j < k ==> out[j] == ExpandPixel(input[j])
        invariant forall j :: k <= j < out.Length ==> out[j] == old(out[j])
      {
        var pixelIn := input[k];
        var r := Beside(((pixelIn & 0x000F) >> 0) as bv32);
        var g := Beside(((pixelIn & 0x00F0) >> 4) as bv32);
        var b := Beside(((pixelIn & 0x0F00) >> 8) as bv32);
        var a := Beside(((pixelIn & 0xF000) >> 12) as bv32);
        out[k] := r | (g << 8) | (b << 16) | (a << 24);
      }
    }
  }
}
