/**
  The per-frame entry point of the later iteration (src/game.rs): one pass
  over the entity arrays that moves player-controlled entities by one cell
  or lets their slide animation advance, then a render pass recorded as the
  sequence of draw calls it issues.
*/
module Game {
  import Common
  import C = Constants

  type Coord = C.BoardCoord
  type Position = (Coord, Coord)

  // Component flags. Their bit values are not part of this model; every
  // property below is stated through Common.Contains and these names.
  const POSITION: bv8 := 1 << 0
  const APPEARANCE: bv8 := 1 << 1
  const PLAYER_CONTROLLED: bv8 := 1 << 2
  const PLAYER: bv8 := POSITION | APPEARANCE | PLAYER_CONTROLLED

  /** The entity's look: a colour and the pixel offset of its slide animation. */
  datatype Appearance = Appearance(colour: bv32, xOff: int, yOff: int)

  /** `CELL_WIDTH as isize`, the offset a one-cell move starts from. */
  const CELL_OFFSET: int := C.CELL_WIDTH

  /** `u8::wrapping_add`. */
  function WrappingAdd(c: Coord, d: Coord): Coord {
    (c + d) % 0x100
  }

  /** `u8::wrapping_sub`. */
  function WrappingSub(c: Coord, d: Coord): Coord {
    (c - d) % 0x100
  }

  function Held(gamepad: bv8, button: bv8): int {
    if Common.Contains(gamepad, button) then 1 else 0
  }

  /** What one frame does to a player entity whose slide has finished: each
      held direction moves it one cell on its axis, wrapping modulo 256, so
      opposing buttons cancel; the offset on an axis is that of the last
      button tested on it (Right after Left, Down after Up), and an axis
      with no button held keeps its offset. Buttons are tested as held, not
      as newly pressed. */
  function PlayerMove(pos: Position, app: Appearance, gamepad: bv8): (Position, Appearance) {
    var left, right := Common.Contains(gamepad, Common.LEFT), Common.Contains(gamepad, Common.RIGHT);
    var up, down := Common.Contains(gamepad, Common.UP), Common.Contains(gamepad, Common.DOWN);
    var x := (pos.0 + Held(gamepad, Common.RIGHT) - Held(gamepad, Common.LEFT)) % 0x100;
    var y := (pos.1 + Held(gamepad, Common.DOWN) - Held(gamepad, Common.UP)) % 0x100;
    var xOff := if right then -CELL_OFFSET else if left then CELL_OFFSET else app.xOff;
    var yOff := if down then -CELL_OFFSET else if up then CELL_OFFSET else app.yOff;
    ((x, y), app.(xOff := xOff, yOff := yOff))
  }

  /** Left alone moves one column left, wrapping 0 to 255, and starts the
      slide one cell to the right; Right alone is the mirror image. */
  lemma HorizontalMoves(pos: Position, app: Appearance, gamepad: bv8)
    ensures var r := PlayerMove(pos, app, gamepad);
            Common.Contains(gamepad, Common.LEFT) && !Common.Contains(gamepad, Common.RIGHT) ==>
              r.0.0 == (pos.0 - 1) % 0x100 && r.1.xOff == CELL_OFFSET
              && (pos.0 == 0 ==> r.0.0 == 255)
    ensures var r := PlayerMove(pos, app, gamepad);
            Common.Contains(gamepad, Common.RIGHT) && !Common.Contains(gamepad, Common.LEFT) ==>
              r.0.0 == (pos.0 + 1) % 0x100 && r.1.xOff == -CELL_OFFSET
              && (pos.0 == 255 ==> r.0.0 == 0)
  {
  }

  /** Up alone moves one row up, wrapping 0 to 255, with a slide from below;
      Down alone is the mirror image. */
  lemma VerticalMoves(pos: Position, app: Appearance, gamepad: bv8)
    ensures var r := PlayerMove(pos, app, gamepad);
            Common.Contains(gamepad, Common.UP) && !Common.Contains(gamepad, Common.DOWN) ==>
              r.0.1 == (pos.1 - 1) % 0x100 && r.1.yOff == CELL_OFFSET
              && (pos.1 == 0 ==> r.0.1 == 255)
    ensures var r := PlayerMove(pos, app, gamepad);
            Common.Contains(gamepad, Common.DOWN) && !Common.Contains(gamepad, Common.UP) ==>
              r.0.1 == (pos.1 + 1) % 0x100 && r.1.yOff == -CELL_OFFSET
              && (pos.1 == 255 ==> r.0.1 == 0)
  {
  }

  /** The axes are independent: without a horizontal button x and its
      offset stay, without a vertical button y and its offset stay, and with
      no direction at all nothing changes. The colour never changes. */
  lemma AxesIndependent(pos: Position, app: Appearance, gamepad: bv8)
    ensures var r := PlayerMove(pos, app, gamepad);
            !Common.Contains(gamepad, Common.LEFT) && !Common.Contains(gamepad, Common.RIGHT) ==>
              r.0.0 == pos.0 && r.1.xOff == app.xOff
    ensures var r := PlayerMove(pos, app, gamepad);
            !Common.Contains(gamepad, Common.UP) && !Common.Contains(gamepad, Common.DOWN) ==>
              r.0.1 == pos.1 && r.1.yOff == app.yOff
    ensures Common.Contains(gamepad, Common.LEFT) || Common.Contains(gamepad, Common.RIGHT) ||
            Common.Contains(gamepad, Common.UP) || Common.Contains(gamepad, Common.DOWN) ||
            PlayerMove(pos, app, gamepad) == (pos, app)
    ensures PlayerMove(pos, app, gamepad).1.colour == app.colour
  {
  }

  /** Opposing buttons held together cancel the move, and the later test
      (Right, Down) decides the offset. */
  lemma OpposingButtons(pos: Position, app: Appearance, gamepad: bv8)
    ensures var r := PlayerMove(pos, app, gamepad);
            Common.Contains(gamepad, Common.LEFT) && Common.Contains(gamepad, Common.RIGHT) ==>
              r.0.0 == pos.0 && r.1.xOff == -CELL_OFFSET
    ensures var r := PlayerMove(pos, app, gamepad);
            Common.Contains(gamepad, Common.UP) && Common.Contains(gamepad, Common.DOWN) ==>
              r.0.1 == pos.1 && r.1.yOff == -CELL_OFFSET
  {
  }

  /** An avatar in the corner cell (5, 5) of the 6 x 6 board pressing Left
      lands in (4, 5) with a slide offset of one cell width, 32 pixels. */
  lemma CornerLeftScenario(app: Appearance)
    ensures PlayerMove((5, 5), app, Common.LEFT) == ((4, 5), app.(xOff := 32))
  {
  }

  // ---------------------------------------------------------------------
  // The update pass

  /** Entity j is a player whose slide is still running: the pass stops there. */
  predicate Stalled(masks: seq<bv8>, apps: seq<Appearance>, isOffset: Appearance -> bool, j: nat)
    requires j < |masks| == |apps|
  {
    Common.Contains(masks[j], PLAYER) && isOffset(apps[j])
  }

  /** The first stalled entity at or after `from`, or the entity count when
      there is none. */
  function FirstStalled(masks: seq<bv8>, apps: seq<Appearance>, isOffset: Appearance -> bool, from: nat): (r: nat)
    requires |masks| == |apps| && from <= |masks|
    ensures from <= r <= |masks|
    ensures r < |masks| ==> Stalled(masks, apps, isOffset, r)
    ensures forall j :: from <= j < r ==> !Stalled(masks, apps, isOffset, j)
    decreases |masks| - from
  {
    if from == |masks| then from
    else if Stalled(masks, apps, isOffset, from) then from
    else FirstStalled(masks, apps, isOffset, from + 1)
  }

  /** The pass stops at i when every entity before i runs on and i is the
      end or stalls. */
  lemma FirstStalledIs(masks: seq<bv8>, apps: seq<Appearance>, isOffset: Appearance -> bool, i: nat)
    requires i <= |masks| == |apps|
    requires forall j :: 0 <= j < i ==> !Stalled(masks, apps, isOffset, j)
    requires i < |masks| ==> Stalled(masks, apps, isOffset, i)
    ensures FirstStalled(masks, apps, isOffset, 0) == i
  {
  }

  /** The position and appearance of entity j after the update pass, given
      the arrays before it. */
  function UpdatedEntity(masks: seq<bv8>, positions: seq<Position>, apps: seq<Appearance>, gamepad: bv8,
                         isOffset: Appearance -> bool, reduceOffset: (Appearance, int) -> Appearance,
                         j: nat): (Position, Appearance)
    requires |masks| == |positions| == |apps| && j < |masks|
  {
    var stop := FirstStalled(masks, apps, isOffset, 0);
    if stop < j || !Common.Contains(masks[j], PLAYER) then (positions[j], apps[j])
    else if j == stop then (positions[j], reduceOffset(apps[j], 8))
    else PlayerMove(positions[j], apps[j], gamepad)
  }

  /** An entity that is not a player keeps its position and appearance. */
  lemma NonPlayerUnchanged(masks: seq<bv8>, positions: seq<Position>, apps: seq<Appearance>, gamepad: bv8,
                           isOffset: Appearance -> bool, reduceOffset: (Appearance, int) -> Appearance,
                           j: nat)
    requires |masks| == |positions| == |apps| && j < |masks|
    requires !Common.Contains(masks[j], PLAYER)
    ensures UpdatedEntity(masks, positions, apps, gamepad, isOffset, reduceOffset, j) == (positions[j], apps[j])
  {
  }

  /** The first player whose slide is running only has its offset reduced by
      8, keeps its position, and every entity after it keeps everything:
      the pass breaks there. */
  lemma StalledPlayerBreaks(masks: seq<bv8>, positions: seq<Position>, apps: seq<Appearance>, gamepad: bv8,
                            isOffset: Appearance -> bool, reduceOffset: (Appearance, int) -> Appearance,
                            j: nat)
    requires |masks| == |positions| == |apps| && j < |masks|
    requires Common.Contains(masks[j], PLAYER) && isOffset(apps[j])
    requires forall k :: 0 <= k < j ==> !Stalled(masks, apps, isOffset, k)
    ensures UpdatedEntity(masks, positions, apps, gamepad, isOffset, reduceOffset, j)
            == (positions[j], reduceOffset(apps[j], 8))
    ensures forall k :: j < k < |masks| ==>
              UpdatedEntity(masks, positions, apps, gamepad, isOffset, reduceOffset, k) == (positions[k], apps[k])
  {
    FirstStalledIs(masks, apps, isOffset, j);
  }

  /** A player before any stalled one moves by the buttons held. */
  lemma IdlePlayerMoves(masks: seq<bv8>, positions: seq<Position>, apps: seq<Appearance>, gamepad: bv8,
                        isOffset: Appearance -> bool, reduceOffset: (Appearance, int) -> Appearance,
                        j: nat)
    requires |masks| == |positions| == |apps| && j < |masks|
    requires Common.Contains(masks[j], PLAYER)
    requires forall k :: 0 <= k <= j ==> !Stalled(masks, apps, isOffset, k)
    ensures UpdatedEntity(masks, positions, apps, gamepad, isOffset, reduceOffset, j)
            == PlayerMove(positions[j], apps[j], gamepad)
  {
  }

  // ---------------------------------------------------------------------
  // The render pass

  /** One call into the framebuffer. */
  datatype DrawCall =
    | Clear
    | Render(entity: nat, pos: Position, appearance: Appearance)
    | Rect(x: int, y: int, width: int, height: int, colour: bv32)

  const DRAWABLE: bv8 := POSITION | APPEARANCE
  const HUD_COLOUR: bv32 := 0xFF333333

  /** The HUD placeholder drawn last: the strip right of the board, full height. */
  const HUD_RECT: DrawCall := Rect(C.HUD_LEFT_EDGE, 0, C.HUD_WIDTH, C.SCREEN_HEIGHT, HUD_COLOUR)

  /** The `render_positioned` calls for entities 0 .. k-1. */
  function Renders(masks: seq<bv8>, positions: seq<Position>, apps: seq<Appearance>, k: nat): seq<DrawCall>
    requires k <= |masks| == |positions| == |apps|
  {
    if k == 0 then []
    else Renders(masks, positions, apps, k - 1)
         + (if Common.Contains(masks[k - 1], DRAWABLE) then [Render(k - 1, positions[k - 1], apps[k - 1])] else [])
  }

  /** The calls of one frame's render pass. */
  function FrameCalls(masks: seq<bv8>, positions: seq<Position>, apps: seq<Appearance>): seq<DrawCall>
    requires |masks| == |positions| == |apps|
  {
    [Clear] + Renders(masks, positions, apps, |masks|) + [HUD_RECT]
  }

  /** Every render is of an entity with Position and Appearance, drawn with
      its own position and appearance, and the renders go in increasing id
      order. */
  lemma {:induction false} RendersSound(masks: seq<bv8>, positions: seq<Position>, apps: seq<Appearance>, k: nat)
    requires k <= |masks| == |positions| == |apps|
    ensures forall t :: 0 <= t < |Renders(masks, positions, apps, k)| ==>
              && Renders(masks, positions, apps, k)[t].Render?
              && Renders(masks, positions, apps, k)[t].entity < k
              && Common.Contains(masks[Renders(masks, positions, apps, k)[t].entity], DRAWABLE)
              && Renders(masks, positions, apps, k)[t].pos == positions[Renders(masks, positions, apps, k)[t].entity]
              && Renders(masks, positions, apps, k)[t].appearance == apps[Renders(masks, positions, apps, k)[t].entity]
    ensures forall s, t :: 0 <= s < t < |Renders(masks, positions, apps, k)| ==>
              Renders(masks, positions, apps, k)[s].entity < Renders(masks, positions, apps, k)[t].entity
  {
    if k > 0 {
      RendersSound(masks, positions, apps, k - 1);
      var r' := Renders(masks, positions, apps, k - 1);
      var r := Renders(masks, positions, apps, k);
      assert forall t :: 0 <= t < |r'| ==> r[t] == r'[t];
    }
  }

  /** Every entity with Position and Appearance is rendered. */
  lemma {:induction false} RendersComplete(masks: seq<bv8>, positions: seq<Position>, apps: seq<Appearance>, k: nat)
    requires k <= |masks| == |positions| == |apps|
    ensures forall j :: 0 <= j < k && Common.Contains(masks[j], DRAWABLE) ==>
              Render(j, positions[j], apps[j]) in Renders(masks, positions, apps, k)
  {
    if k > 0 {
      RendersComplete(masks, positions, apps, k - 1);
    }
  }

  /** A frame starts with one clear, then only renders, and ends with the
      HUD rectangle. */
  lemma FrameOrder(masks: seq<bv8>, positions: seq<Position>, apps: seq<Appearance>)
    requires |masks| == |positions| == |apps|
    ensures var f := FrameCalls(masks, positions, apps);
            2 <= |f| && f[0] == Clear && f[|f| - 1] == HUD_RECT
            && forall t :: 0 < t < |f| - 1 ==> f[t].Render?
    ensures HUD_RECT == Rect(200, 0, 56, 240, 0xFF333333)
  {
    var r := Renders(masks, positions, apps, |masks|);
    var f := FrameCalls(masks, positions, apps);
    RendersSound(masks, positions, apps, |masks|);
    assert forall t :: 0 < t < |f| - 1 ==> f[t] == r[t - 1];
    C.HudLayout();
  }

  // ---------------------------------------------------------------------
  // State

  /** The framebuffer of the later iteration, observed through the draw
      calls made on it. */
  class Framebuffer {
    var calls: seq<DrawCall>

    constructor ()
      ensures calls == []
    {
      calls := [];
    }

    method Clear()
      modifies this
      ensures calls == old(calls) + [DrawCall.Clear]
    {
      calls := calls + [DrawCall.Clear];
    }

    method DrawRect(x: int, y: int, width: int, height: int, colour: bv32)
      modifies this
      ensures calls == old(calls) + [Rect(x, y, width, height, colour)]
    {
      calls := calls + [Rect(x, y, width, height, colour)];
    }

    /** `Appearance::render_positioned` for entity `entity`. */
    method RenderPositioned(entity: nat, appearance: Appearance, pos: Position)
      modifies this
      ensures calls == old(calls) + [Render(entity, pos, appearance)]
    {
      calls := calls + [Render(entity, pos, appearance)];
    }
  }

  /** The entity store: parallel arrays indexed by entity id. */
  class GameState {
    const entities: array<bv8>
    const positions: array<Position>
    const appearances: array<Appearance>

    /** One slot per entity in each array, and three separate arrays. */
    ghost predicate Valid() {
      && entities.Length == positions.Length == appearances.Length
      && entities as object != positions as object
      && entities as object != appearances as object
      && positions as object != appearances as object
    }

    /** The button handling of `update_and_render` for player entity i,
        whose slide has finished. */
    method MovePlayer(i: nat, gamepad: bv8)
      requires Valid() && i < entities.Length
      modifies positions, appearances
      ensures (positions[i], appearances[i]) == PlayerMove(old(positions[i]), old(appearances[i]), gamepad)
      ensures forall j :: 0 <= j < positions.Length && j != i ==>
                positions[j] == old(positions[j]) && appearances[j] == old(appearances[j])
    {
      var pos, appearance := positions[i], appearances[i];
      var x, y := pos.0, pos.1;

      if Common.Contains(gamepad, Common.LEFT) {
        x := WrappingSub(x, 1);
        appearance := appearance.(xOff := CELL_OFFSET);
      }

      if Common.Contains(gamepad, Common.RIGHT) {
        x := WrappingAdd(x, 1);
        appearance := appearance.(xOff := -CELL_OFFSET);
      }
      assert x == (pos.0 + Held(gamepad, Common.RIGHT) - Held(gamepad, Common.LEFT)) % 0x100;

      if Common.Contains(gamepad, Common.UP) {
        y := WrappingSub(y, 1);
        appearance := appearance.(yOff := CELL_OFFSET);
      }

      if Common.Contains(gamepad, Common.DOWN) {
        y := WrappingAdd(y, 1);
        appearance := appearance.(yOff := -CELL_OFFSET);
      }
      assert y == (pos.1 + Held(gamepad, Common.DOWN) - Held(gamepad, Common.UP)) % 0x100;

      appearances[i] := appearance;
      positions[i] := (x, y);
    }

    /** The world is laid out elsewhere; the store takes its arrays. */
    constructor (entities: array<bv8>, positions: array<Position>, appearances: array<Appearance>)
      requires entities.Length == positions.Length == appearances.Length
      requires entities as object != positions as object
      requires entities as object != appearances as object
      requires positions as object != appearances as object
      ensures Valid()
      ensures this.entities == entities && this.positions == positions && this.appearances == appearances
    {
      this.entities := entities;
      this.positions := positions;
      this.appearances := appearances;
    }
  }

  /** The update pass of `update_and_render`: players move by the held
      buttons until the first one whose slide is still running, which only
      has its slide reduced. `isOffset` and `reduceOffset` stand for the
      appearance's own methods. */
  method UpdatePass(state: GameState, gamepad: bv8,
                    isOffset: Appearance -> bool, reduceOffset: (Appearance, int) -> Appearance)
    requires state.Valid()
    modifies state.positions, state.appearances
    ensures forall j :: 0 <= j < state.entities.Length ==>
              (state.positions[j], state.appearances[j])
              == UpdatedEntity(state.entities[..], old(state.positions[..]), old(state.appearances[..]),
                               gamepad, isOffset, reduceOffset, j)
  {
    ghost var masks, ps0, as0 := state.entities[..], state.positions[..], state.appearances[..];
    var n := state.entities.Length;
    var i := 0;
    while i < n
      invariant 0 <= i <= n
      invariant forall j :: 0 <= j < i ==> !Stalled(masks, as0, isOffset, j)
      invariant forall j :: 0 <= j < i ==>
                  (state.positions[j], state.appearances[j])
                  == if Common.Contains(masks[j], PLAYER) then PlayerMove(ps0[j], as0[j], gamepad) else (ps0[j], as0[j])
      invariant forall j :: i <= j < n ==> state.positions[j] == ps0[j] && state.appearances[j] == as0[j]
      modifies state.positions, state.appearances
    {
      var entity := state.entities[i];
      if Common.Contains(entity, PLAYER) {
        if isOffset(state.appearances[i]) {
          state.appearances[i] := reduceOffset(state.appearances[i], 8);
          FirstStalledIs(masks, as0, isOffset, i);
          break;
        }

        state.MovePlayer(i, gamepad);
      }
      i := i + 1;
    }
    if i == n {
      FirstStalledIs(masks, as0, isOffset, n);
    }
  }

  /** The render pass of `update_and_render`: clear, render every entity
      with a position and an appearance in id order, then the HUD strip. */
  method RenderPass(state: GameState, framebuffer: Framebuffer)
    requires state.Valid()
    modifies framebuffer
    ensures framebuffer.calls
            == old(framebuffer.calls) + FrameCalls(state.entities[..], state.positions[..], state.appearances[..])
  {
    framebuffer.Clear();

    var n := state.entities.Length;
    var i := 0;
    while i < n
      invariant 0 <= i <= n
      invariant framebuffer.calls
                == old(framebuffer.calls) + [Clear]
                   + Renders(state.entities[..], state.positions[..], state.appearances[..], i)
      modifies framebuffer
    {
      var entity := state.entities[i];
      if Common.Contains(entity, POSITION | APPEARANCE) {
        var pos := state.positions[i];
        framebuffer.RenderPositioned(i, state.appearances[i], pos);
      }
      i := i + 1;
    }

    framebuffer.DrawRect(C.HUD_LEFT_EDGE, 0, C.HUD_WIDTH, C.SCREEN_HEIGHT, HUD_COLOUR);
  }

  /** `update_and_render`: the update pass, then the render pass over the
      updated state. */
  method UpdateAndRender(state: GameState, framebuffer: Framebuffer, gamepad: bv8,
                         isOffset: Appearance -> bool, reduceOffset: (Appearance, int) -> Appearance)
    requires state.Valid()
    modifies state.positions, state.appearances, framebuffer
    ensures state.entities[..] == old(state.entities[..])
    ensures forall j :: 0 <= j < state.entities.Length ==>
              (state.positions[j], state.appearances[j])
              == UpdatedEntity(state.entities[..], old(state.positions[..]), old(state.appearances[..]),
                               gamepad, isOffset, reduceOffset, j)
    ensures framebuffer.calls
            == old(framebuffer.calls) + FrameCalls(state.entities[..], state.positions[..], state.appearances[..])
  {
    UpdatePass(state, gamepad, isOffset, reduceOffset);
    RenderPass(state, framebuffer);
  }
}
