# aspect-aspic: board indexing, pixel expansion and the per-frame update

A Dafny model of three small pieces of the tile game aspect-aspic, each with
the constants of its own iteration of the program:

- `src/common.rs`, the early iteration: an 18 x 20 board of 12-pixel cells.
  The row-major bijection between a board index and a cell `(x, y)` is
  modelled once, generically, in module `BoardIndex`. It works for any board
  of at least one cell each way whose cell count fits in a 64-bit `usize`.
  Module `Common` instantiates it, together with:
  - the 16-bit 4-4-4-4 framebuffer: its creation, equality and rainbow fill;
  - its expansion into the host's 32-bit 8-8-8-8 buffer by `State::framebuffer`;
  - the NES-ordered button bits.
- `src/common/constants.rs`, the later iteration: a 6 x 6 board of 32-pixel
  cells. Module `Constants` holds these constants, and its lemmas check the
  arithmetic that fixes the HUD strip. It also instantiates the same board
  bijection on the 6 x 6 board.
- `src/game.rs`, the later iteration's `update_and_render`. It is a method of
  module `Game` over a `GameState` class whose three parallel arrays hold the
  component mask, position and appearance of each entity. The update pass is
  specified entity by entity, through `UpdatedEntity`. The render pass is
  specified as the exact sequence of draw calls the framebuffer receives.

Where the game's description and the code disagree, the model follows the
code:
- a player moves with wrapping `u8` arithmetic, not saturating arithmetic;
- buttons are tested as held, with no press-edge detection;
- there is no mode machine;
- circle rasterisation is not in the modelled files.

## Model

| member | source | states |
|---|---|---|
| `BoardIndex.GetBoardIndex` | src/common.rs:118-130 | Some(y·width + x), an on-board index, exactly when x < width and y < height; None otherwise |
| `BoardIndex.GetBoardXY` | src/common.rs:132-144 | Some((i mod width, i div width)), an on-board cell, exactly when i < width·height; None otherwise |
| `BoardIndex.NoSaturationOnBoard` | src/common.rs:123-125 | for an on-board (x, y) neither saturating multiply nor add saturates, and the second guard passes |
| `BoardIndex.RowOfIndexOnBoard` | src/common.rs:137-139 | for an on-board index the computed column and row are on the board, so the second guard passes |
| `BoardIndex.IndexRoundTrip` | src/common.rs:155-163 | index → (x, y) → index gives Some(i) for an on-board i and None otherwise, on every valid board |
| `BoardIndex.XYRoundTrip` | src/common.rs:167-175 | (x, y) → index → (x, y) gives Some((x, y)) on the board and None otherwise, on every valid board |
| `Common.GetBoardIndex` | src/common.rs:118-130 | on the 18 x 20 board: Some(18y + x) exactly when x < 18 and y < 20 |
| `Common.GetBoardXY` | src/common.rs:132-144 | on the 18 x 20 board: Some((i mod 18, i div 18)) exactly when i < 360 |
| `Common.IndexXYIndex` | src/common.rs:155-163 | the `i_xy_i` test property on the 18 x 20 board |
| `Common.XYIndexXY` | src/common.rs:167-175 | the `xy_i_xy` test property on the 18 x 20 board |
| `Common.BoardDims` | src/common.rs:107-113 | cells are 256/20 = 12 px square; the board is (256 − 40)/12 = 18 cells wide and 240/12 = 20 high |
| `Common.Layout` | src/common.rs:106-114 | BOARD_LENGTH is 360, the board and the 40 px HUD fit the screen, and the board is a valid bijection board |
| `Common.ButtonBits` | src/common.rs:88-101 | A … Right are the bits 1 … 128 and fill the byte; `contains` of a union is the conjunction of `contains` |
| `Common.Beside` | src/common.rs:82-85 | a nibble written twice side by side is 17 times the nibble |
| `Common.ExpandPixelBytes` | src/common.rs:73-78 | byte j of an expanded pixel is 17 times nibble j of the input pixel, for red, green, blue and alpha |
| `Common.ExpandPixelExtremes` | src/common.rs:73-78 | 0x0000 expands to 0 and 0xFFFF to 0xFFFFFFFF |
| `Common.ExpandPixelRoundTrip` | src/common.rs:73-78 | expansion is injective: keeping the high nibble of each byte gives the input pixel back |
| `Common.State.ExportFramebuffer` | src/common.rs:71-80 | output pixel k is the expansion of input pixel k for k below both lengths; the other output pixels keep their values |
| `Common.Framebuffer.constructor` | src/common.rs:29-35 | `default` (and `new`, which calls it) yields 256·240 zero pixels |
| `Common.Framebuffer.Equals` | src/common.rs:9-13 | two framebuffers are equal exactly when their buffers have one length and agree pixel by pixel |
| `Common.EqualsIsEquivalence` | src/common.rs:9-15 | that equality is reflexive, symmetric and transitive, as `Eq` promises |
| `Common.Framebuffer.Rainbow` | src/common.rs:22-26 | keeps the length and sets pixel i to (i + x − 2y) mod 2^16; a non-empty buffer needs 2y ≤ x |
| `Common.RainbowPeriodic` | src/common.rs:24 | the 16-bit truncation repeats the rainbow every 2^16 pixels |
| `Common.NewGameState` | src/common.rs:44-51 | the cursor starts at (128, 120) and all BOARD_LENGTH cells are empty |
| `Common.State.constructor` | src/common.rs:60-69 | a fresh zeroed framebuffer, no button held, a new game state |
| `Constants.BoardSize` | src/common/constants.rs:3-9 | the board is 6 x 6 = 36 cells, both sides fit a `u8` board coordinate, and it is a valid bijection board |
| `Constants.CellGeometry` | src/common/constants.rs:22-25 | cells are 32 px square, the diameter is the width and twice the radius |
| `Constants.HudLayout` | src/common/constants.rs:12-29 | HUD_LEFT_EDGE = 6·(32 + 1) + 2 = 200 ≤ SCREEN_WIDTH, HUD_WIDTH = 56, and together they reach the screen edge |
| `Constants.ColoursOpaque` | src/common/constants.rs:15-19 | every named colour has alpha byte 0xFF |
| `Constants.BoardRoundTrips` | src/common/constants.rs:6-9 | both board round trips hold on the 6 x 6 board |
| `Game.HorizontalMoves` | src/game.rs:21-29 | Left alone: x − 1 mod 256 (0 becomes 255), x offset +32; Right alone: x + 1 mod 256 (255 becomes 0), x offset −32 |
| `Game.VerticalMoves` | src/game.rs:31-39 | Up alone: y − 1 mod 256, y offset +32; Down alone: y + 1 mod 256, y offset −32 |
| `Game.AxesIndependent` | src/game.rs:19-41 | horizontal buttons never touch y or its offset, vertical ones never touch x or its offset, no direction changes nothing, and the colour never changes |
| `Game.OpposingButtons` | src/game.rs:21-39 | Left with Right keeps x and leaves offset −32; Up with Down keeps y and leaves offset −32 |
| `Game.CornerLeftScenario` | src/game.rs:21-24 | from cell (5, 5), Left gives cell (4, 5) with x offset 32 |
| `Game.GameState.MovePlayer` | src/game.rs:19-41 | the four button tests, in order, give the net move of `PlayerMove` for entity i and leave every other entity alone |
| `Game.FirstStalled` | src/game.rs:9-17 | the first player entity whose slide is still running, or the entity count when there is none |
| `Game.FirstStalledIs` | src/game.rs:14-17 | the pass stops at i when no entity before i stalls and i stalls or is the end |
| `Game.NonPlayerUnchanged` | src/game.rs:9-11 | an entity without the Player components keeps its position and appearance |
| `Game.StalledPlayerBreaks` | src/game.rs:14-17 | the first player with an offset only gets `reduce_offset(8)`, keeps its position, and every later entity keeps everything |
| `Game.IdlePlayerMoves` | src/game.rs:11-41 | a player before any stalled one moves by the held buttons |
| `Game.RendersSound` | src/game.rs:47-55 | every render is of an entity with Position and Appearance, drawn with its own position and appearance, in increasing id order |
| `Game.RendersComplete` | src/game.rs:47-55 | every entity with Position and Appearance is rendered |
| `Game.FrameOrder` | src/game.rs:45-57 | a frame is one clear, then only renders, then the HUD rectangle (200, 0, 56, 240, 0xFF333333) |
| `Game.Framebuffer.Clear` | src/game.rs:45 | appends a clear to the calls |
| `Game.Framebuffer.RenderPositioned` | src/game.rs:50-53 | appends the render of one entity at its position with its appearance |
| `Game.Framebuffer.DrawRect` | src/game.rs:57 | appends the rectangle |
| `Game.UpdatePass` | src/game.rs:9-43 | every entity ends as `UpdatedEntity` says: moved if it is a player before the first stalled one, slide reduced if it is that one, otherwise unchanged |
| `Game.RenderPass` | src/game.rs:45-57 | the framebuffer gets exactly `FrameCalls` of the current state: a clear, the renders in id order, the HUD rectangle |
| `Game.UpdateAndRender` | src/game.rs:4-58 | every entity ends as `UpdatedEntity` says; the masks do not change; the framebuffer gets exactly the calls of `FrameCalls`, rendered from the updated state |

## Left out

- `is_offset` and `reduce_offset` are not in the modelled files. `UpdateAndRender` takes them as function parameters, so no property depends on how they work; in particular, that a slide reaches offset zero after finitely many frames is not stated.
- The bodies of `clear`, `draw_rect` and `render_positioned` are not in the modelled files. The framebuffer of the later iteration is observed only through the sequence of calls it receives.
- `render_positioned` takes the appearance by `&mut`. The model assumes it leaves the appearance unchanged.
- The `Component` flag values are not in the modelled files. The model fixes Position = 1, Appearance = 2 and PlayerControlled = 4, with Player as their union. Every property is stated through `contains` and these names, and none depends on the values.
- `GameState::ENTITY_COUNT` is not in the modelled files. The entity count is the common length of the three arrays.
- The other fields of `GameState` and `Appearance` in the later iteration are not in the modelled files. The appearance keeps a colour to stand for them.
- `bitflags!` is not modelled. Flags are plain `u8` bit masks, with `contains(m, b)` meaning `m & b == b`.
- The quickcheck harness is not modelled. Its two properties are the round-trip lemmas, proved for all inputs.
- `usize` is modelled as 64 bits wide.
- Common.Framebuffer.Rainbow: modelled as a debug build, where the `usize` subtraction panics when 2y > x on a non-empty buffer; so 2y ≤ x is required. A release build wraps, and its result modulo 2^16 is the same.
- These are outside the core and not modelled: the host that calls `update_and_render` and presents the buffer, input polling, and frame pacing.
- The two iterations' constants are not reconciled. Each module keeps its own file's values.
