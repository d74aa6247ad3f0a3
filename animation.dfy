/** Sprite-sheet animation (src/graphics/animation.js): an `AnimatedTexture`
    cycles a tile index through a sheet of `tilesX` by `tilesY` tiles, one
    tile per call of `Update` at most, and only once enough time has passed;
    an `AnimatedSprite` pairs one with a renderable mesh.

    The behaviour of `Update` is specified by the function `Tick` on a
    `Playback` value; the properties of playback are lemmas about `Tick`
    and about `Run`, the trace of a sequence of updates. */
module Animation {
  import opened Js

  /** Every sheet is timed for this many frames per second. */
  const FramesPerSecond: real := 12.0

  /** The default loop duration in milliseconds: `numTiles` frames at
      `FramesPerSecond`. Whatever the tile count, one tile lasts
      1000/12 ms. */
  function DefaultDuration(numTiles: int): (d: real)
    requires 0 < numTiles
    ensures 0.0 < d
    ensures d / numTiles as real == 1000.0 / FramesPerSecond
  {
    (numTiles as real / FramesPerSecond) * 1000.0
  }

  /** What an animated texture is configured with and never changes after
      construction: the sheet's grid, the usable tile count, the loop
      duration and the optional tile at which playback pauses. */
  datatype Sheet = Sheet(tilesX: int, tilesY: int, numTiles: int, duration: real, stopAt: Option<int>)
  {
    predicate Valid() {
      0 < tilesX && 0 < tilesY && 0 < numTiles
    }

    /** The least time between two tile advances. */
    function Interval(): real
      requires 0 < numTiles
    {
      duration / numTiles as real
    }
  }

  /** The part of an animated texture that `update`, `start` and `stop`
      change. */
  datatype Playback = Playback(lastUpdate: real, currentTile: int, paused: bool)

  /** The tile index stays a valid index of the sheet's usable tiles. */
  predicate InRange(p: Playback, sheet: Sheet) {
    0 <= p.currentTile < sheet.numTiles
  }

  /** `update` advances only when playback runs and a full interval has
      passed since the last advance. */
  predicate Due(p: Playback, sheet: Sheet, tFrame: real)
    requires 0 < sheet.numTiles
  {
    !p.paused && tFrame - p.lastUpdate >= sheet.Interval()
  }

  /** One call of `AnimatedTexture.update(tFrame)` on the playback state:
      nothing happens while paused or before the interval has passed;
      otherwise the time is recorded, the tile moves one step forward,
      wrapping to 0 after the last usable tile, and playback pauses when the
      tile it lands on (after the wrap) is `stopAt`. */
  function Tick(p: Playback, sheet: Sheet, tFrame: real): (r: Playback)
    requires 0 < sheet.numTiles
    ensures !Due(p, sheet, tFrame) ==> r == p
    ensures Due(p, sheet, tFrame) ==> r.lastUpdate == tFrame
    ensures Due(p, sheet, tFrame) ==> (r.paused <==> sheet.stopAt == Some(r.currentTile))
    ensures Due(p, sheet, tFrame) ==> r.currentTile == 0 || r.currentTile == p.currentTile + 1
    ensures Due(p, sheet, tFrame) && InRange(p, sheet) ==>
              r.currentTile == (p.currentTile + 1) % sheet.numTiles
    ensures Due(p, sheet, tFrame) && !InRange(p, sheet) ==> r.currentTile == p.currentTile + 1
    ensures InRange(p, sheet) ==> InRange(r, sheet)
  {
    if p.paused || tFrame - p.lastUpdate < sheet.Interval() then
      p
    else
      var next := if p.currentTile + 1 == sheet.numTiles then 0 else p.currentTile + 1;
      Playback(tFrame, next, p.paused || sheet.stopAt == Some(next))
  }

  /** The states after each of a sequence of updates at the given times. */
  function Run(p: Playback, sheet: Sheet, times: seq<real>): (trace: seq<Playback>)
    requires 0 < sheet.numTiles
    ensures |trace| == |times|
    ensures 0 < |times| ==> trace[0] == Tick(p, sheet, times[0])
    decreases |times|
  {
    if times == [] then
      []
    else
      var q := Tick(p, sheet, times[0]);
      [q] + Run(q, sheet, times[1..])
  }

  /** Each state of a trace is one `Tick` from the state before it. */
  lemma {:induction false} RunStep(p: Playback, sheet: Sheet, times: seq<real>, i: nat)
    requires 0 < sheet.numTiles
    requires 0 < i < |times|
    ensures Run(p, sheet, times)[i] == Tick(Run(p, sheet, times)[i - 1], sheet, times[i])
    decreases i
  {
    var q := Tick(p, sheet, times[0]);
    assert Run(p, sheet, times) == [q] + Run(q, sheet, times[1..]);
    if i > 1 {
      RunStep(q, sheet, times[1..], i - 1);
    }
  }

  /** Every time in `times` is at least one interval after the previous one,
      the first at least one interval after `lastUpdate`. */
  predicate Spaced(lastUpdate: real, times: seq<real>, interval: real) {
    && (0 < |times| ==> times[0] - lastUpdate >= interval)
    && forall i :: 0 < i < |times| ==> times[i] - times[i - 1] >= interval
  }

  /** The tile reached from `start` after `steps` advances on a loop of `n`. */
  function TileAfter(start: int, steps: int, n: int): int
    requires 0 < n
  {
    (start + steps) % n
  }

  /** Stepping once more from a wrapped position is the same as wrapping the
      longer walk. */
  lemma TileAfterStep(start: int, steps: int, n: int)
    requires 0 < n
    ensures (TileAfter(start, steps, n) + 1) % n == TileAfter(start, steps + 1, n)
  {
    var a := start + steps;
    var q := a / n;
    assert a == q * n + a % n;
    assert a + 1 == q * n + (a % n + 1);
    ShiftByMultiple(a % n + 1, q, n);
  }

  lemma ShiftByMultiple(x: int, q: int, n: int)
    requires 0 < n
    ensures (q * n + x) % n == x % n
  {
    var y := q * n + x;
    assert y == n * (y / n) + y % n;
    assert x == n * (x / n) + x % n;
    assert y % n - x % n == n * (x / n + q - y / n);
    var d := x / n + q - y / n;
    if d > 0 {
      AtLeastOnce(d, n);
      assert false;
    } else if d < 0 {
      AtLeastOnce(-d, n);
      assert false;
    }
  }

  /** The heart of playback: with every update spaced by at least an
      interval and `stopAt` not met on the way, the `k`-th update (from 0)
      lands on the tile `k + 1` steps after the start, records its time and
      pauses exactly when that tile is `stopAt`. */
  lemma {:induction false} RunAdvances(p: Playback, sheet: Sheet, times: seq<real>, k: nat)
    requires sheet.Valid() && InRange(p, sheet) && !p.paused
    requires Spaced(p.lastUpdate, times, sheet.Interval())
    requires k < |times|
    requires forall j :: 1 <= j <= k ==> sheet.stopAt != Some(TileAfter(p.currentTile, j, sheet.numTiles))
    ensures Run(p, sheet, times)[k] ==
              Playback(times[k], TileAfter(p.currentTile, k + 1, sheet.numTiles),
                       sheet.stopAt == Some(TileAfter(p.currentTile, k + 1, sheet.numTiles)))
  {
    var n, c := sheet.numTiles, p.currentTile;
    var trace := Run(p, sheet, times);
    if k == 0 {
      assert times[0] - p.lastUpdate >= sheet.Interval();
      assert trace[0] == Tick(p, sheet, times[0]);
    } else {
      RunAdvances(p, sheet, times, k - 1);
      var prev := trace[k - 1];
      assert prev.currentTile == TileAfter(c, k, n);
      assert !prev.paused;
      assert times[k] - times[k - 1] >= sheet.Interval();
      assert Due(prev, sheet, times[k]);
      TileAfterStep(c, k, n);
      RunStep(p, sheet, times, k);
    }
  }

  /** Without a reachable `stopAt` (none at all, or one outside the usable
      tiles) playback never pauses and visits the tiles in order, wrapping
      around after the last one. */
  lemma NeverPausesWithoutReachableStop(p: Playback, sheet: Sheet, times: seq<real>, k: nat)
    requires sheet.Valid() && InRange(p, sheet) && !p.paused
    requires sheet.stopAt.None? || !(0 <= sheet.stopAt.value < sheet.numTiles)
    requires Spaced(p.lastUpdate, times, sheet.Interval())
    requires k < |times|
    ensures !Run(p, sheet, times)[k].paused
    ensures Run(p, sheet, times)[k].currentTile == TileAfter(p.currentTile, k + 1, sheet.numTiles)
  {
    RunAdvances(p, sheet, times, k);
  }

  /** With `stopAt == Some(0)`, started from tile 0, `numTiles` spaced
      updates visit 1, 2, ..., numTiles - 1 and then 0, and playback pauses
      on the last of them and not before: the wrap happens before the stop
      test, so tile 0 stops the loop only after a full turn. */
  lemma FullLoopStopsAtZero(p: Playback, sheet: Sheet, times: seq<real>)
    requires sheet.Valid() && sheet.stopAt == Some(0)
    requires p.currentTile == 0 && !p.paused
    requires Spaced(p.lastUpdate, times, sheet.Interval())
    requires |times| == sheet.numTiles
    ensures forall k :: 0 <= k < |times| ==>
              Run(p, sheet, times)[k].currentTile == (k + 1) % sheet.numTiles &&
              (Run(p, sheet, times)[k].paused <==> k == |times| - 1)
  {
    forall k | 0 <= k < |times|
      ensures Run(p, sheet, times)[k].currentTile == (k + 1) % sheet.numTiles
      ensures Run(p, sheet, times)[k].paused <==> k == |times| - 1
    {
      FullLoopAt(p, sheet, times, k);
    }
  }

  lemma FullLoopAt(p: Playback, sheet: Sheet, times: seq<real>, k: nat)
    requires sheet.Valid() && sheet.stopAt == Some(0)
    requires p.currentTile == 0 && !p.paused
    requires Spaced(p.lastUpdate, times, sheet.Interval())
    requires |times| == sheet.numTiles && k < |times|
    ensures Run(p, sheet, times)[k].currentTile == (k + 1) % sheet.numTiles
    ensures Run(p, sheet, times)[k].paused <==> k == |times| - 1
  {
    var n := sheet.numTiles;
    NoEarlierZero(k, n);
    RunAdvances(p, sheet, times, k);
    LastStepWrapsToZero(k, n);
  }

  /** Walking from tile 0, none of the first `k < n` steps lands on 0. */
  lemma NoEarlierZero(k: int, n: int)
    requires 0 <= k < n
    ensures forall j :: 1 <= j <= k ==> Some(0) != Some(TileAfter(0, j, n))
  {
    forall j | 1 <= j <= k
      ensures Some(0) != Some(TileAfter(0, j, n))
    {
      assert TileAfter(0, j, n) == j;
    }
  }

  /** Walking from tile 0, step `k + 1` lands on 0 exactly when it is the
      `n`-th. */
  lemma LastStepWrapsToZero(k: int, n: int)
    requires 0 <= k < n
    ensures TileAfter(0, k + 1, n) == (k + 1) % n
    ensures TileAfter(0, k + 1, n) == 0 <==> k == n - 1
  {
    if k + 1 < n {
      assert (k + 1) % n == k + 1;
    } else {
      assert (k + 1) % n == 0;
    }
  }

  /** The player's sheet in src/game.js: 42 tiles in one row, `stopAt: 0`.
      After `start()` and 42 updates one interval apart, the tiles are
      1, ..., 41, 0 and the animation is paused again; an update at time 0,
      before the first interval, changes nothing. */
  lemma CauliflowerLoop()
    ensures var sheet := Sheet(42, 1, 42, DefaultDuration(42), Some(0));
            var started := Playback(0.0, 0, false);
            var times := seq(42, i => (i + 1) as real * sheet.Interval());
            var trace := Run(started, sheet, times);
            && Tick(started, sheet, 0.0) == started
            && (forall k :: 0 <= k < 41 ==> trace[k].currentTile == k + 1 && !trace[k].paused)
            && trace[41].currentTile == 0 && trace[41].paused
  {
    var sheet := Sheet(42, 1, 42, DefaultDuration(42), Some(0));
    var started := Playback(0.0, 0, false);
    var times := seq(42, i => (i + 1) as real * sheet.Interval());
    assert sheet.Interval() == 1000.0 / 12.0;
    assert Spaced(started.lastUpdate, times, sheet.Interval()) by {
      forall i | 0 <= i < |times|
        ensures times[i] - (if i == 0 then started.lastUpdate else times[i - 1]) >= sheet.Interval()
      {
        if i > 0 {
          assert times[i] - times[i - 1] == sheet.Interval();
        }
      }
    }
    FullLoopStopsAtZero(started, sheet, times);
  }

  /** The sampling cell of a tile: column `tile % tilesX` (JavaScript's
      remainder) and row `Math.floor(tile / tilesX)`. */
  function Cell(tile: int, tilesX: int): (c: (int, int))
    requires 0 < tilesX
    ensures 0 <= tile ==> 0 <= c.0 < tilesX && 0 <= c.1 && c.1 * tilesX + c.0 == tile
  {
    (Rem(tile, tilesX), FloorDiv(tile, tilesX))
  }

  /** A usable tile of a sheet that has room for all `numTiles` tiles is
      sampled from inside the grid. */
  lemma CellWithinSheet(tile: int, tilesX: int, tilesY: int, numTiles: int)
    requires 0 < tilesX && 0 < tilesY
    requires 0 <= tile < numTiles <= tilesX * tilesY
    ensures 0 <= Cell(tile, tilesX).0 < tilesX
    ensures 0 <= Cell(tile, tilesX).1 < tilesY
  {
    var (col, row) := Cell(tile, tilesX);
    if row >= tilesY {
      assert row * tilesX >= tilesY * tilesX by {
        AtLeastAsMany(row, tilesY, tilesX);
      }
      assert false;
    }
  }

  lemma AtLeastAsMany(a: int, b: int, m: int)
    requires b <= a && 0 < m
    ensures b * m <= a * m
  {
    assert a * m - b * m == (a - b) * m;
  }

  /** Reading the cell back gives the tile: column and row in the grid
      determine the tile `row * tilesX + col`, so distinct tiles are sampled
      from distinct cells. */
  lemma CellOfTile(col: int, row: int, tilesX: int)
    requires 0 <= col < tilesX && 0 <= row
    ensures Cell(row * tilesX + col, tilesX) == (col, row)
  {
    var tile := row * tilesX + col;
    var (c, r) := Cell(tile, tilesX);
    assert r * tilesX + c == row * tilesX + col;
    assert (r - row) * tilesX == col - c;
    if r > row {
      AtLeastOnce(r - row, tilesX);
      assert false;
    } else if r < row {
      AtLeastOnce(row - r, tilesX);
      assert false;
    }
  }

  /** A texture handle: its tiling offset (kept here as the sampled cell,
      column and row; the renderer's fractional offset is the column over
      `tilesX` and the row over `tilesY`), its repeat factors and whether it
      wraps by repeating. */
  class Texture {
    var offsetCol: int
    var offsetRow: int
    var repeatX: real
    var repeatY: real
    var repeatWrapping: bool
  }

  /** The options `AnimatedTexture` accepts to override its defaults. */
  datatype TextureOpts = TextureOpts(
    duration: Option<real>,
    lastUpdate: Option<real>,
    currentTile: Option<int>,
    paused: Option<bool>,
    stopAt: Option<int>)

  class AnimatedTexture {
    const texture: Texture
    const tilesX: int
    const tilesY: int
    const numTiles: int
    const duration: real
    const stopAt: Option<int>
    var lastUpdate: real
    var currentTile: int
    var paused: bool

    /** The fixed configuration. */
    function Config(): Sheet {
      Sheet(tilesX, tilesY, numTiles, duration, stopAt)
    }

    /** The playback state. */
    function State(): Playback
      reads this
    {
      Playback(lastUpdate, currentTile, paused)
    }

    predicate Valid() {
      Config().Valid()
    }

    /** `new AnimatedTexture(texture, tilesX, tilesY, numTiles, opts)`: the
        state starts at tile 0, time 0, paused, with no stop tile and a
        duration of `numTiles` frames at 12 per second, except where `opts`
        says otherwise; the texture is set to repeat, one tile at a time. */
    constructor(texture: Texture, tilesX: int, tilesY: int, numTiles: int, opts: TextureOpts)
      requires 0 < tilesX && 0 < tilesY && 0 < numTiles
      modifies texture
      ensures Valid()
      ensures this.texture == texture
      ensures this.tilesX == tilesX && this.tilesY == tilesY && this.numTiles == numTiles
      ensures duration == opts.duration.GetOr(DefaultDuration(numTiles))
      ensures stopAt == opts.stopAt
      ensures State() == Playback(opts.lastUpdate.GetOr(0.0), opts.currentTile.GetOr(0), opts.paused.GetOr(true))
      ensures texture.repeatWrapping
      ensures texture.repeatX == 1.0 / tilesX as real && texture.repeatY == 1.0 / tilesY as real
      ensures texture.offsetCol == old(texture.offsetCol) && texture.offsetRow == old(texture.offsetRow)
    {
      this.texture := texture;
      this.tilesX, this.tilesY, this.numTiles := tilesX, tilesY, numTiles;
      duration := opts.duration.GetOr(DefaultDuration(numTiles));
      lastUpdate := opts.lastUpdate.GetOr(0.0);
      currentTile := opts.currentTile.GetOr(0);
      paused := opts.paused.GetOr(true);
      stopAt := opts.stopAt;
      new;
      texture.repeatWrapping := true;
      texture.repeatX, texture.repeatY := 1.0 / tilesX as real, 1.0 / tilesY as real;
    }

    /** `update(tFrame)`: the playback state takes one `Tick`; when it
        advanced, the texture now samples the new tile's cell, and otherwise
        the texture is untouched. Only the offset of the texture changes. */
    method Update(tFrame: real)
      requires Valid()
      modifies this, texture`offsetCol, texture`offsetRow
      ensures State() == Tick(old(State()), Config(), tFrame)
      ensures Due(old(State()), Config(), tFrame) ==>
                (texture.offsetCol, texture.offsetRow) == Cell(currentTile, tilesX)
      ensures !Due(old(State()), Config(), tFrame) ==>
                texture.offsetCol == old(texture.offsetCol) && texture.offsetRow == old(texture.offsetRow)
    {
      if paused || tFrame - lastUpdate < duration / numTiles as real {
        return;
      }
      lastUpdate := tFrame;
      currentTile := currentTile + 1;
      if currentTile == numTiles {
        currentTile := 0;
      }
      if stopAt == Some(currentTile) {
        paused := true;
      }
      texture.offsetCol := Rem(currentTile, tilesX);
      texture.offsetRow := FloorDiv(currentTile, tilesX);
    }

    /** `start()`: playback runs; nothing else changes. */
    method Start()
      modifies this`paused
      ensures State() == old(State()).(paused := false)
    {
      paused := false;
    }

    /** `stop()`: playback pauses; nothing else changes. */
    method Stop()
      modifies this`paused
      ensures State() == old(State()).(paused := true)
    {
      paused := true;
    }
  }

  /** The renderable handle of a sprite: the texture its material shows and
      its scale. */
  class Mesh {
    const texture: Texture
    var scaleX: real
    var scaleY: real
    var scaleZ: real

    constructor(texture: Texture)
      ensures this.texture == texture
      ensures scaleX == 1.0 && scaleY == 1.0 && scaleZ == 1.0
    {
      this.texture := texture;
      scaleX, scaleY, scaleZ := 1.0, 1.0, 1.0;
    }
  }

  class AnimatedSprite {
    const animatedTexture: AnimatedTexture
    const mesh: Mesh
    var scale: real

    /** `new AnimatedSprite(animatedTexture, opts)`: a new mesh whose material
        shows the animated texture's texture, and a scale of 1 unless
        `opts` gives one. */
    constructor(animatedTexture: AnimatedTexture, scale: Option<real>)
      ensures this.animatedTexture == animatedTexture
      ensures fresh(mesh) && mesh.texture == animatedTexture.texture
      ensures this.scale == scale.GetOr(1.0)
    {
      this.animatedTexture := animatedTexture;
      mesh := new Mesh(animatedTexture.texture);
      this.scale := scale.GetOr(1.0);
    }

    /** `update(tFrame)`: the mesh takes the sprite's scale on all three
        axes, and the animated texture takes exactly one update. */
    method Update(tFrame: real)
      requires animatedTexture.Valid()
      modifies mesh, animatedTexture, animatedTexture.texture`offsetCol, animatedTexture.texture`offsetRow
      ensures mesh.scaleX == scale && mesh.scaleY == scale && mesh.scaleZ == scale
      ensures animatedTexture.State() ==
                Tick(old(animatedTexture.State()), animatedTexture.Config(), tFrame)
      ensures Due(old(animatedTexture.State()), animatedTexture.Config(), tFrame) ==>
                (animatedTexture.texture.offsetCol, animatedTexture.texture.offsetRow) ==
                Cell(animatedTexture.currentTile, animatedTexture.tilesX)
      ensures !Due(old(animatedTexture.State()), animatedTexture.Config(), tFrame) ==>
                animatedTexture.texture.offsetCol == old(animatedTexture.texture.offsetCol) &&
                animatedTexture.texture.offsetRow == old(animatedTexture.texture.offsetRow)
    {
      mesh.scaleX, mesh.scaleY, mesh.scaleZ := scale, scale, scale;
      animatedTexture.Update(tFrame);
    }
  }
}
