# Sprite animation and camera orbit of a browser sprite game

This project models the per-frame game logic of a small browser game, a
3D scene with an orbiting camera and one animated billboard sprite. It
covers:

- **Sprite-sheet animation** (`src/graphics/animation.js`). An
  `AnimatedTexture` keeps a tile index into a sheet of `tilesX` by `tilesY`
  tiles, of which `numTiles` are used. `update(tFrame)` advances it by at
  most one tile per call, and only once `duration / numTiles` milliseconds
  have passed since the last advance. The index wraps to 0 after the last
  tile. Playback pauses when the tile it lands on, after the wrap, is
  `stopAt`. Then the texture offset is set to the tile's cell in the grid.
  `start` clears the `paused` gate and `stop` sets it. An `AnimatedSprite` copies its
  scale onto its mesh and then updates its texture once.
- **Camera orbit and key dispatch** (`src/game.js`). `orbit(direction)`
  queues a quarter turn onto the target angle and sets the angular speed.
  `_orbitStep` is called once per frame. On each call it either moves the
  angle by the speed, or, once the magnitudes of angle and target agree,
  reduces the target modulo a full turn, snaps the angle to it and stops.
  `keydown`/`keyup` look the key code up in the `keyCodes` table and
  dispatch on the action.

Files:

- `js.dfy`, module `Js`: JavaScript semantics the model needs. `Option`
  stands for a value that may be `null`/`undefined`. `Abs` is `Math.abs`.
  `Rem` is the truncating `%`. `FloorDiv` is `Math.floor(a / b)`.
- `animation.dfy`, module `Animation`. `Tick` is the pure specification of
  one `update` on a `Playback` value (time, tile, paused). The fixed
  configuration is a `Sheet`. `Run` is the trace of a sequence of updates.
  The lemmas about them state the playback properties. The classes
  `Texture`, `AnimatedTexture`, `Mesh` and `AnimatedSprite` have methods
  whose postconditions tie the new state to `Tick`.
- `game.dfy`, module `Game`. The key table is a sequence of entries in
  JavaScript's key-enumeration order. `Lookup` and `GetKeyByValue` work
  over that sequence. `OrbitCommand` and `StepOrbit` are the orbit's pure
  specification on a `Camera` value (angle, target, speed).
  `OnKeyDown`/`OnKeyUp` specify the handlers. The class `Game` holds the
  mutable fields, and its methods are proved against those functions.

Angles are integers in units of the orbit's base speed, pi/30 rad. So the
speed is ±1, a quarter turn (`angleDelta`) is 15 and a full turn is 60. An
angle the controller can reach is always a whole number of units. The
source's convergence test `|(|target| - |angle|)| < 0.001` therefore becomes
a difference of zero. The snap uses `Rem`, JavaScript's remainder, which
keeps the sign of the target. It is not Dafny's Euclidean `%`.

The magnitude-only convergence test is kept as written. A target and an
angle of equal size and opposite sign count as converged
(`OppositeSignSnaps`). Two further facts are proved. An orbit heading
toward its target always becomes idle on it, up to whole turns
(`HeadingToTargetConverges`).
The speed, however, takes the direction of the last command, not the side
the target is on. So the sequence right, right, 20 frames, left, left,
left, right leaves the camera turning forever, away from a target of 0
(`SpeedFollowsLastCommand`). That is the behaviour of the code as written,
and the model keeps it.

The model follows the code as written in these points:

- `AnimatedSprite.update` only sets the mesh scale and updates the texture.
  It does not move the sprite by a motion vector.
- `startMove`, `stopMove` and `jump` are called on the player, but
  `AnimatedSprite` does not define them, so each call throws a `TypeError`
  that ends the handler. No modelled effect comes after such a call:
  `keyup` calls `orbit` before `stopMove`, and no action reaches both
  branches of `keydown`. The model records each call as a `PlayerEvent`.
- The texture is not privately copied. The result of `texture.clone()` is
  discarded, so `update` writes the offset of the texture it was given,
  which other holders of that texture see too.
- An invalid orbit direction is not rejected: `console.assert` does not
  stop execution. In the model the direction is the type `Direction`, so
  only `left` or `right` can be passed.

## Model

| member | source | states |
|---|---|---|
| Js.Option.GetOr | src/graphics/animation.js:9-19 | the option's value when present, the default otherwise, as `Object.assign` over defaults does |
| Js.Abs | src/game.js:291 | the result is non-negative and is `x` or `-x` |
| Js.Rem | src/game.js:298 | JavaScript's `%`: smaller in magnitude than the divisor, with the sign of the dividend, and differing from it by a multiple of the divisor |
| Js.RemKeepsSignOfDividend | src/game.js:298 | `-75 % 60` is `-15` in JavaScript where the Euclidean remainder is 45 |
| Js.RemOfNonNegative | src/graphics/animation.js:55 | for a non-negative tile and positive `tilesX`, the JavaScript and the Euclidean remainder agree |
| Js.FloorDiv | src/graphics/animation.js:56 | `Math.floor(a / b)` for `b > 0`: the largest `q` with `q * b <= a` |
| Animation.DefaultDuration | src/graphics/animation.js:14 | the default duration is positive, and the per-tile interval `duration / numTiles` is 1000/12 ms whatever `numTiles` is |
| Animation.Due | src/graphics/animation.js:34 | the negation of the early return: playback runs and at least `duration / numTiles` ms have passed since `lastUpdate` |
| Animation.Tick | src/graphics/animation.js:31-52 | paused or too early: no change at all; otherwise `lastUpdate` becomes `tFrame`, the tile becomes `(tile + 1) % numTiles` when it was in range and `tile + 1` when it was not (0 or tile + 1 in any case), paused exactly when the new tile is `stopAt`, and a tile in `[0, numTiles)` stays there |
| Animation.Run | src/graphics/animation.js:31-52 | the trace of a sequence of updates has one state per update, the first one `Tick` of the start state |
| Animation.RunStep | src/graphics/animation.js:31-52 | each state of a trace is one `Tick` from the previous |
| Animation.RunAdvances | src/graphics/animation.js:34-52 | with updates spaced by an interval and `stopAt` not met before, the k-th update lands on the tile k + 1 steps on, records its time, and pauses exactly when that tile is `stopAt` |
| Animation.NeverPausesWithoutReachableStop | src/graphics/animation.js:45-52 | with `stopAt` null or outside `[0, numTiles)`, spaced updates never pause and visit the tiles in order with wrap-around |
| Animation.FullLoopStopsAtZero | src/graphics/animation.js:44-52 | with `stopAt = 0` from tile 0, `numTiles` spaced updates visit 1, ..., numTiles - 1, 0 and pause on the last one only (wrap before stop) |
| Animation.CauliflowerLoop | src/game.js:175 | the player's 42-tile sheet with `stopAt: 0`, once started: an update at time 0 does nothing, then 42 updates one interval apart visit 1..41 unpaused and end paused on 0 |
| Animation.Cell | src/graphics/animation.js:55-56 | for a non-negative tile, the column is in `[0, tilesX)`, the row is non-negative and `row * tilesX + column` is the tile |
| Animation.CellWithinSheet | src/graphics/animation.js:55-56 | a tile below `numTiles <= tilesX * tilesY` is sampled from a cell inside the grid: column below `tilesX`, row below `tilesY` |
| Animation.CellOfTile | src/graphics/animation.js:55-56 | the cell of the tile `row * tilesX + col` is `(col, row)`, so distinct tiles have distinct cells |
| Animation.AnimatedTexture.constructor | src/graphics/animation.js:5-29 | tile 0, time 0, paused, no `stopAt` and duration `numTiles / 12 * 1000` unless the options override them; the texture is set to repeat with repeat `1/tilesX`, `1/tilesY`, its offset untouched |
| Animation.AnimatedTexture.Update | src/graphics/animation.js:31-57 | the playback state becomes `Tick` of the old one; on an advance the texture offset is the new tile's cell, otherwise the texture is untouched; nothing but the state and the offset changes |
| Animation.AnimatedTexture.Start | src/graphics/animation.js:59-63 | `paused` becomes false; nothing else changes |
| Animation.AnimatedTexture.Stop | src/graphics/animation.js:65-69 | `paused` becomes true; nothing else changes |
| Animation.Mesh.constructor | src/graphics/animation.js:75-79 | a sprite mesh showing the given texture, with unit scale |
| Animation.AnimatedSprite.constructor | src/graphics/animation.js:73-87 | a fresh mesh showing the animated texture's texture; scale 1 unless given |
| Animation.AnimatedSprite.Update | src/graphics/animation.js:89-94 | the mesh scale is `(scale, scale, scale)` and the animated texture takes exactly one `Tick`, with the offset effect of its `Update` |
| Game.Lookup | src/game.js:225 | `obj[key]` over a table kept as its entries: the value of the first entry with the key, or undefined; `LookupFindsEntry` characterises it |
| Game.LookupFindsEntry | src/game.js:225 | `keyCodes[keyCode]` is undefined exactly when no entry has the key, and otherwise is the value of the first entry with that key |
| Game.GetKeyByValue | src/game.js:42-44 | undefined exactly when no entry has the value; otherwise the key of the first entry, in enumeration order, with that value |
| Game.GetKeyByValueInvertsLookup | src/game.js:42-44 | on a one-to-one table, `getKeyByValue(obj, v) == k` exactly when `obj[k] == v` |
| Game.ActionOf | src/game.js:252 | `keyCodes[evt.keyCode]`, the lookup both handlers start with; `KeyCodesAreOneToOne` and `KeyCodeActions` characterise it |
| Game.KeyCodesAreOneToOne | src/game.js:31-44 | `keyCodes` maps exactly the codes 37, 38, 39, 40, 65, 83, and `getKeyByValue` finds each action's code back, both directions |
| Game.KeyCodeActions | src/game.js:31-38 | the actions of the six mapped key codes, which are the entries of the constant `KeyCodes` |
| Game.OrbitDirection | src/game.js:258-259 | an action is an orbit action exactly when its name contains `orbit-` (on these six names the same as starting with it), and then its name is `orbit-` followed by the direction's name |
| Game.OrbitCommand | src/game.js:328-344 | the angle is untouched; the speed is one base speed, negative exactly for `left`; the target moves by speed times a quarter turn |
| Game.Converged | src/game.js:291 | the convergence test on whole units: the magnitudes of target and angle are equal, whatever their signs |
| Game.StepOrbit | src/game.js:286-305 | idle: no change; orbiting and not converged: the angle moves by the speed, target and speed kept; converged: idle with the angle on the target, `|target| < 2*pi`, the target changed by a multiple of a full turn and keeping its sign |
| Game.Steps | src/game.js:286-305 | `n` frames of `_orbitStep`, one per rendered frame; `StepsKeepInvariant`, `IdleStaysIdle` and `HeadingToTargetConverges` state what they do |
| Game.InitialCameraInvariant | src/game.js:134-137 | the initial orbit fields satisfy the orbit invariant |
| Game.OrbitCommandKeepsInvariant | src/game.js:337-343 | `orbit` keeps the invariant: speed 0 or one base speed, target a whole number of quarter turns, idle only on the target within a full turn |
| Game.StepOrbitKeepsInvariant | src/game.js:289-305 | a frame of `_orbitStep` keeps the invariant |
| Game.StepsKeepInvariant | src/game.js:286-305 | any number of frames of `_orbitStep` keep the orbit invariant |
| Game.IdleStaysIdle | src/game.js:289-290 | any number of frames leave an idle controller unchanged |
| Game.HeadingToTargetConverges | src/game.js:291-305 | an orbit heading toward its target is idle after at most the distance plus one frames, with the angle on a target that is the original target reduced by a whole number of full turns and within a full turn of 0 |
| Game.ClimbsTowardTarget | src/game.js:303-305 | with the target ahead on the positive side, each frame moves the angle one unit and nothing else |
| Game.QuarterTurnRight | src/game.js:291-305 | from idle at 0, `orbit('right')` then 15 frames reach angle pi/2 still orbiting, and the 16th frame makes it idle at pi/2 |
| Game.CommandsAccumulate | src/game.js:337-343 | two lefts lower the target by pi (to -pi from 0); left then right restores the target with the speed at `+baseSpeed` |
| Game.OppositeSignSnaps | src/game.js:291-295 | from idle at -pi/2, two rights aim at +pi/2 and the next frame converges and snaps to +pi/2 |
| Game.AwayFromZeroNeverStops | src/game.js:303-305 | orbiting in the positive direction from a positive angle with target 0, the angle grows by one unit every frame forever |
| Game.SpeedFollowsLastCommand | src/game.js:337-343 | right, right, 20 frames, left, left, left, right reaches a state that never converges |
| Game.OnKeyDown | src/game.js:223-248 | unmapped codes and actions other than move and jump do nothing; player-left starts a move with sign +1, player-right with -1; player-jump calls `jump`; the camera never changes |
| Game.OnKeyUp | src/game.js:250-265 | unmapped codes, jump and down do nothing; orbit-left/orbit-right issue that orbit command; player-left/player-right call `stopMove` |
| Game.KeyHandlersKeepInvariant | src/game.js:223-265 | both key handlers keep the orbit invariant |
| Game.KeyBindings | src/game.js:223-265 | release of 65/83 orbits left/right, release of 37/39 stops the player, press of 37/39 starts it with sign +1/-1, press of 38 jumps, 40 does nothing |
| Game.Game.constructor | src/game.js:133-140 | camera at angle 0 aimed at 0, idle, no calls on the player |
| Game.Game.Orbit | src/game.js:328-344 | the orbit fields become `OrbitCommand` of the old ones; invariant kept; nothing else changes |
| Game.Game.OrbitStep | src/game.js:286-305 | the orbit fields become `StepOrbit` of the old ones; invariant kept; nothing else changes |
| Game.Game.KeyDown | src/game.js:223-248 | the state becomes `OnKeyDown` of the old one |
| Game.Game.KeyUp | src/game.js:250-265 | the state becomes `OnKeyUp` of the old one, issuing the orbit command through `Orbit` |

## Left out

- Rendering and scene setup are not modelled: the three.js and Physijs
  objects, renderer, camera projection, `init`, `resize`, `render` and the
  `requestAnimationFrame` loop. They are library calls and a browser loop.
  `_updateSprites` belongs to that loop and is not modelled either.
- The camera position (`Math.cos`/`Math.sin` of the angle times the range)
  and `lookAt` at the end of `_orbitStep` are floating-point trigonometry
  and a library call. For the same reason the unused `tFrame` argument of
  `_orbitStep` is dropped.
- In `keydown` the movement axis is chosen by `Math.min` over the camera's
  x and z, through `getKeyByValue`. This is a float comparison of camera
  coordinates. The move vector's magnitude of 0.1 is left out too. Only the
  sign of the move (+1 for player-left, -1 for player-right) is recorded.
  `_placeSprite` is left out for the same reason.
- `buildMap` and `createCube` depend on `Math.random`, and the terrain is
  commented out of the game. The event-listener wiring and `destroy` are
  DOM I/O. `movePlayer` has an empty body.
- `startMove`, `stopMove` and `jump` are not defined in the sprite code, so
  in JavaScript each call throws a `TypeError` that ends the handler. The
  thrown error is not modelled; the model records the call as a
  `PlayerEvent` instead. Nothing the model tracks comes after such a call
  in either handler, so the modelled state is the same either way.
- Key codes are integers in the model. `R.keys` gives the keys of
  `keyCodes` as strings, so in JavaScript `getKeyByValue(keyCodes,
  'orbit-left')` is `"65"`, not `65`. The model does not tell the string
  and the integer key apart. The one call of `getKeyByValue` in the source
  is on the camera coordinates, in the left-out axis choice.
- Texture cloning is left out: its result is discarded. Aliasing of one
  `Texture` between several animated textures is possible in the model as
  in the source. The model does not prove anything about it.
- The constructor wiring in `src/game.js`, which passes one object where
  `AnimatedSprite` expects `(animatedTexture, opts)`, is not modelled.
  `AnimatedSprite.constructor` takes the texture and an optional scale.
- `AnimatedTexture` options can override only `duration`, `lastUpdate`,
  `currentTile`, `paused` and `stopAt`. In JavaScript `Object.assign` could
  replace any property, including the tile counts. `stopAt` is an integer
  or null. A fractional `stopAt` would never match a tile anyway.
- Animation.AnimatedTexture.constructor: requires positive `tilesX`,
  `tilesY` and `numTiles`. JavaScript would divide by zero into
  `Infinity`/`NaN` instead, and that floating-point behaviour is not
  modelled.
- Timestamps are Dafny `real`s, not IEEE doubles. Angles are exact
  multiples of pi/30, so the float rounding of repeated `+= pi/30` is not
  modelled.
- Game.Game.Orbit: takes a `Direction`, so the invalid-direction case of
  `console.assert`, which does not halt, cannot arise.
- `Game.Game` models only the orbit fields and the record of player calls,
  not the scene, renderer or sprite list. Nor does it model `opts`: in the
  source `Object.assign` may override `cameraAngle`, `cameraTargetAngle`
  and `cameraOrbitSpeed` as well, but the constructor fixes all three at
  0, as at the only construction of a game, which passes no options. The
  orbit invariant `CameraInvariant` holds from the start only because of
  that.
- `src/state.js`, `src/main.js` and `lib/main.js` are the store with no
  handlers, the canvas setup and the bootstrap loop. They have no logic of
  their own.
