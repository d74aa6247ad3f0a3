/** The game's camera orbit and key dispatch (src/game.js).

    Angles are whole multiples of the orbit's base speed, pi/30 radians
    (6 degrees): the speed is one unit a frame, a quarter turn is 15 units
    and a full turn 60. Every angle the controller can reach is such a
    multiple, so the source's test "difference below 0.001 rad" is the test
    "difference zero". */
module Game {
  import opened Js

  /** `baseSpeed`, pi/30 rad a frame. */
  const BaseSpeed: int := 1
  /** `angleDelta`, pi/2 rad. */
  const AngleDelta: int := 15
  /** 2 * pi rad. */
  const FullTurn: int := 60

  // ---------------------------------------------------------------------
  // Key table and dispatch

  /** The semantic actions of the key table. */
  datatype Action = PlayerLeft | PlayerJump | PlayerRight | PlayerDown | OrbitLeft | OrbitRight
  {
    /** The action's name as the source spells it. */
    function Name(): string {
      match this
      case PlayerLeft => "player-left"
      case PlayerJump => "player-jump"
      case PlayerRight => "player-right"
      case PlayerDown => "player-down"
      case OrbitLeft => "orbit-left"
      case OrbitRight => "orbit-right"
    }
  }

  /** The argument of `orbit`. */
  datatype Direction = Left | Right
  {
    function Name(): string {
      match this
      case Left => "left"
      case Right => "right"
    }
  }

  /** `keyCodes`, as its entries in the order JavaScript enumerates an
      object's integer keys (ascending). */
  const KeyCodes: seq<(int, Action)> :=
    [(37, PlayerLeft), (38, PlayerJump), (39, PlayerRight), (40, PlayerDown), (65, OrbitLeft), (83, OrbitRight)]

  /** No two entries share a key, as in any JavaScript object. */
  predicate DistinctKeys<K(==), V>(entries: seq<(K, V)>) {
    forall i, j :: 0 <= i < j < |entries| ==> entries[i].0 != entries[j].0
  }

  /** No two entries share a value. */
  predicate DistinctValues<K, V(==)>(entries: seq<(K, V)>) {
    forall i, j :: 0 <= i < j < |entries| ==> entries[i].1 != entries[j].1
  }

  /** `obj[key]`: the value stored under `key`, or `undefined`. */
  function Lookup<K(==), V>(entries: seq<(K, V)>, key: K): Option<V>
    decreases |entries|
  {
    if entries == [] then None
    else if entries[0].0 == key then Some(entries[0].1)
    else Lookup(entries[1..], key)
  }

  /** A lookup finds a value exactly when some entry has the key, and the
      value it finds is stored under the first entry with that key. */
  lemma {:induction false} LookupFindsEntry<K, V>(entries: seq<(K, V)>, key: K)
    ensures Lookup(entries, key).None? <==> forall i :: 0 <= i < |entries| ==> entries[i].0 != key
    ensures Lookup(entries, key).Some? ==>
              exists i :: 0 <= i < |entries| && entries[i] == (key, Lookup(entries, key).value) &&
                          forall j :: 0 <= j < i ==> entries[j].0 != key
    decreases |entries|
  {
    if entries != [] && entries[0].0 != key {
      var rest := entries[1..];
      LookupFindsEntry(rest, key);
      var r := Lookup(rest, key);
      if r.Some? {
        var i :| 0 <= i < |rest| && rest[i] == (key, r.value) && forall j :: 0 <= j < i ==> rest[j].0 != key;
        assert entries[i + 1] == (key, r.value);
        forall j | 0 <= j < i + 1 ensures entries[j].0 != key {
          if j > 0 { assert entries[j] == rest[j - 1]; }
        }
      } else {
        forall i | 0 <= i < |entries| ensures entries[i].0 != key {
          if i > 0 { assert entries[i] == rest[i - 1]; }
        }
      }
    }
  }

  /** `getKeyByValue(obj, value)`: the first key, in enumeration order, whose
      value is `value`, or `undefined` when there is none. */
  function GetKeyByValue<K, V(==)>(entries: seq<(K, V)>, value: V): (r: Option<K>)
    ensures r.None? <==> forall i :: 0 <= i < |entries| ==> entries[i].1 != value
    ensures r.Some? ==> exists i :: 0 <= i < |entries| && entries[i] == (r.value, value) &&
                                    forall j :: 0 <= j < i ==> entries[j].1 != value
    decreases |entries|
  {
    if entries == [] then None
    else if entries[0].1 == value then Some(entries[0].0)
    else
      var r := GetKeyByValue(entries[1..], value);
      assert r.Some? ==> exists i :: 1 <= i < |entries| && entries[i] == (r.value, value) &&
                                     forall j :: 0 <= j < i ==> entries[j].1 != value by {
        if r.Some? {
          var i :| 0 <= i < |entries[1..]| && entries[1..][i] == (r.value, value) &&
                   forall j :: 0 <= j < i ==> entries[1..][j].1 != value;
          assert entries[i + 1] == (r.value, value);
          assert forall j :: 0 <= j < i + 1 ==> entries[j].1 != value by {
            forall j | 0 <= j < i + 1 ensures entries[j].1 != value {
              if j > 0 { assert entries[j] == entries[1..][j - 1]; }
            }
          }
        }
      }
      r
  }

  /** For a table that is one-to-one, `getKeyByValue` inverts the lookup:
      the key found for a value is exactly the key that maps to it. */
  lemma GetKeyByValueInvertsLookup<K, V>(entries: seq<(K, V)>, key: K, value: V)
    requires DistinctKeys(entries) && DistinctValues(entries)
    ensures Lookup(entries, key) == Some(value) <==> GetKeyByValue(entries, value) == Some(key)
  {
    LookupFindsEntry(entries, key);
    if Lookup(entries, key) == Some(value) {
      var i :| 0 <= i < |entries| && entries[i] == (key, value);
      var g := GetKeyByValue(entries, value);
      assert g.Some?;
      var i' :| 0 <= i' < |entries| && entries[i'] == (g.value, value);
      assert i == i';
    }
    if GetKeyByValue(entries, value) == Some(key) {
      var i :| 0 <= i < |entries| && entries[i] == (key, value);
      var l := Lookup(entries, key);
      assert l.Some?;
      var i' :| 0 <= i' < |entries| && entries[i'] == (key, l.value);
      assert i == i';
    }
  }

  /** `keyCodes[keyCode]`. */
  function ActionOf(keyCode: int): Option<Action> {
    Lookup(KeyCodes, keyCode)
  }

  /** The key table is one-to-one, so every action has one key, found back
      by `getKeyByValue`, and six codes are mapped. */
  lemma KeyCodesAreOneToOne(keyCode: int, action: Action)
    ensures ActionOf(keyCode) == Some(action) <==> GetKeyByValue(KeyCodes, action) == Some(keyCode)
    ensures ActionOf(keyCode).Some? <==> keyCode in {37, 38, 39, 40, 65, 83}
  {
    assert DistinctKeys(KeyCodes) && DistinctValues(KeyCodes);
    GetKeyByValueInvertsLookup(KeyCodes, keyCode, action);
  }

  /** `R.contains('orbit-', action)` and `action.replace('orbit-', '')`:
      an action whose name contains "orbit-" names the orbit direction
      spelled after it. On the six action names, containing "orbit-" and
      starting with it are the same test, so the contract states the
      prefix. */
  function OrbitDirection(a: Action): (r: Option<Direction>)
    ensures r.Some? <==> |a.Name()| >= 6 && a.Name()[..6] == "orbit-"
    ensures r.Some? ==> a.Name() == "orbit-" + r.value.Name()
  {
    match a
    case OrbitLeft => Some(Left)
    case OrbitRight => Some(Right)
    case _ =>
      assert a.Name()[0] == 'p';
      None
  }

  // ---------------------------------------------------------------------
  // Camera orbit

  /** The orbit state: `cameraAngle.y`, `cameraTargetAngle.y` and
      `cameraOrbitSpeed`. The controller is idle when the speed is 0 and
      orbiting otherwise. */
  datatype Camera = Camera(angle: int, target: int, speed: int)
  {
    predicate Idle() { speed == 0 }
  }

  const InitialCamera := Camera(0, 0, 0)

  /** `orbit(direction)`: the speed becomes one base speed in the given
      direction and the target moves a quarter turn that way; the current
      angle is untouched. Commands accumulate on the target. */
  function OrbitCommand(c: Camera, d: Direction): (r: Camera)
    ensures r.angle == c.angle
    ensures Abs(r.speed) == BaseSpeed
    ensures r.speed < 0 <==> d == Left
    ensures r.target == c.target + r.speed * AngleDelta
  {
    match d
    case Left => Camera(c.angle, c.target - AngleDelta, -BaseSpeed)
    case Right => Camera(c.angle, c.target + AngleDelta, BaseSpeed)
  }

  /** The convergence test of `_orbitStep`: the magnitudes of target and
      angle agree. Equal magnitudes of opposite sign count as converged. */
  predicate Converged(c: Camera) {
    Abs(Abs(c.target) - Abs(c.angle)) == 0
  }

  /** `_orbitStep`: idle does nothing; orbiting and converged, the target is
      reduced by JavaScript's remainder modulo a full turn, the angle snaps to
      it and the controller stops; orbiting and not converged, the angle
      moves by the speed. */
  function StepOrbit(c: Camera): (r: Camera)
    ensures c.Idle() ==> r == c
    ensures !c.Idle() && !Converged(c) ==> r == Camera(c.angle + c.speed, c.target, c.speed)
    ensures !c.Idle() && Converged(c) ==>
              && r.Idle() && r.angle == r.target
              && Abs(r.target) < FullTurn
              && (r.target - c.target) % FullTurn == 0
              && (0 <= c.target ==> 0 <= r.target)
              && (c.target <= 0 ==> r.target <= 0)
  {
    if c.speed == 0 then
      c
    else if Abs(Abs(c.target) - Abs(c.angle)) == 0 then
      var target := Rem(c.target, FullTurn);
      Camera(target, target, 0)
    else
      Camera(c.angle + c.speed, c.target, c.speed)
  }

  /** `n` frames of `_orbitStep`. */
  function Steps(c: Camera, n: nat): Camera
    decreases n
  {
    if n == 0 then c else Steps(StepOrbit(c), n - 1)
  }

  /** What every reachable orbit state satisfies: the speed is one base
      speed or zero, the target is a whole number of quarter turns, and an
      idle controller sits exactly on its target, less than a full turn
      from zero. */
  predicate CameraInvariant(c: Camera) {
    && (c.speed == 0 || Abs(c.speed) == BaseSpeed)
    && c.target % AngleDelta == 0
    && (c.Idle() ==> c.angle == c.target && Abs(c.target) < FullTurn)
  }

  lemma InitialCameraInvariant()
    ensures CameraInvariant(InitialCamera)
  {
  }

  lemma OrbitCommandKeepsInvariant(c: Camera, d: Direction)
    requires CameraInvariant(c)
    ensures CameraInvariant(OrbitCommand(c, d))
  {
    var r := OrbitCommand(c, d);
    assert r.target == c.target + r.speed * AngleDelta;
    var q := c.target / AngleDelta;
    assert c.target == AngleDelta * q;
    assert r.target == AngleDelta * (q + r.speed);
    MultipleHasNoRemainder(q + r.speed, AngleDelta);
  }

  lemma StepOrbitKeepsInvariant(c: Camera)
    requires CameraInvariant(c)
    ensures CameraInvariant(StepOrbit(c))
  {
    var r := StepOrbit(c);
    if !c.Idle() && Converged(c) {
      // c.target and r.target differ by a multiple of a full turn, itself
      // four quarter turns
      var k := (r.target - c.target) / FullTurn;
      assert r.target - c.target == FullTurn * k;
      var q := c.target / AngleDelta;
      assert c.target == AngleDelta * q;
      assert r.target == AngleDelta * (q + 4 * k);
      MultipleHasNoRemainder(q + 4 * k, AngleDelta);
    }
  }

  /** Any number of frames keep the invariant. */
  lemma {:induction false} StepsKeepInvariant(c: Camera, n: nat)
    requires CameraInvariant(c)
    ensures CameraInvariant(Steps(c, n))
    decreases n
  {
    if n > 0 {
      StepOrbitKeepsInvariant(c);
      StepsKeepInvariant(StepOrbit(c), n - 1);
    }
  }

  /** Idle is a fixed point of the step. */
  lemma {:induction false} IdleStaysIdle(c: Camera, n: nat)
    requires c.Idle()
    ensures Steps(c, n) == c
    decreases n
  {
    if n > 0 {
      IdleStaysIdle(StepOrbit(c), n - 1);
    }
  }

  /** Convergence: an orbiting controller heading toward its target (or
      already on it) is idle on the target within the distance plus one
      frames. It may stop earlier, on the angle of the target's magnitude
      with the opposite sign. */
  lemma {:induction false} HeadingToTargetConverges(c: Camera)
    requires Abs(c.speed) == BaseSpeed
    requires 0 <= (c.target - c.angle) * c.speed
    ensures var r := Steps(c, Abs(c.target - c.angle) + 1);
            r.Idle() && r.angle == r.target && Abs(r.target) < FullTurn &&
            (r.target - c.target) % FullTurn == 0
    decreases Abs(c.target - c.angle)
  {
    var d := Abs(c.target - c.angle);
    var next := StepOrbit(c);
    if Converged(c) {
      IdleStaysIdle(next, d);
    } else {
      assert c.angle != c.target;
      assert next == Camera(c.angle + c.speed, c.target, c.speed);
      if c.speed == 1 {
        assert c.angle < c.target;
      } else {
        assert c.angle > c.target;
      }
      assert Abs(next.target - next.angle) == d - 1;
      HeadingToTargetConverges(next);
    }
  }

  /** Orbiting toward a target that is ahead and on the same side of zero,
      each frame moves the angle one unit and nothing else. */
  lemma {:induction false} ClimbsTowardTarget(angle: int, target: int, n: nat)
    requires 0 <= angle && angle + n <= target
    ensures Steps(Camera(angle, target, 1), n) == Camera(angle + n, target, 1)
    decreases n
  {
    if n > 0 {
      assert StepOrbit(Camera(angle, target, 1)) == Camera(angle + 1, target, 1);
      ClimbsTowardTarget(angle + 1, target, n - 1);
    }
  }

  /** From idle on angle 0, `orbit('right')` then 16 frames: 15 frames of
      one unit each, then the snap; the camera is idle at pi/2. */
  lemma QuarterTurnRight()
    ensures Steps(OrbitCommand(InitialCamera, Right), 15) == Camera(15, 15, 1)
    ensures Steps(OrbitCommand(InitialCamera, Right), 16) == Camera(15, 15, 0)
  {
    var c := OrbitCommand(InitialCamera, Right);
    assert c == Camera(0, 15, 1);
    ClimbsTowardTarget(0, 15, 15);
    StepsSplit(c, 15);
    assert StepOrbit(Camera(15, 15, 1)) == Camera(15, 15, 0);
  }

  /** One more frame after `n` frames. */
  lemma {:induction false} StepsSplit(c: Camera, n: nat)
    ensures Steps(c, n + 1) == StepOrbit(Steps(c, n))
    decreases n
  {
    if n > 0 {
      StepsSplit(StepOrbit(c), n - 1);
    }
  }

  /** Commands accumulate on the target: two lefts from 0 aim at -pi; left
      then right restores the target and leaves the speed positive. */
  lemma CommandsAccumulate(c: Camera)
    ensures OrbitCommand(OrbitCommand(c, Left), Left).target == c.target - 2 * AngleDelta
    ensures OrbitCommand(OrbitCommand(InitialCamera, Left), Left).target == -30
    ensures OrbitCommand(OrbitCommand(c, Left), Right) == Camera(c.angle, c.target, BaseSpeed)
  {
  }

  /** The opposite-sign edge case, preserved from the source: from idle at
      -pi/2, two `orbit('right')` commands aim at +pi/2, and the very next
      frame counts that as converged and snaps the camera across to +pi/2. */
  lemma OppositeSignSnaps()
    ensures var c := OrbitCommand(OrbitCommand(Camera(-15, -15, 0), Right), Right);
            c == Camera(-15, 15, 1) && StepOrbit(c) == Camera(15, 15, 0)
  {
  }

  /** An orbiting controller moving away from a target of 0 never converges:
      its angle only grows. */
  lemma {:induction false} AwayFromZeroNeverStops(angle: int, n: nat)
    requires 0 < angle
    ensures Steps(Camera(angle, 0, 1), n) == Camera(angle + n, 0, 1)
    decreases n
  {
    if n > 0 {
      assert StepOrbit(Camera(angle, 0, 1)) == Camera(angle + 1, 0, 1);
      AwayFromZeroNeverStops(angle + 1, n - 1);
    }
  }

  /** The speed takes the direction of the last command, not the side the
      target is on, so a reachable state can orbit forever: right twice,
      20 frames, left three times, right once; the target is 0 behind the
      angle 20 and the camera keeps turning. */
  lemma SpeedFollowsLastCommand(n: nat)
    ensures var c0 := Steps(OrbitCommand(OrbitCommand(InitialCamera, Right), Right), 20);
            var c1 := OrbitCommand(OrbitCommand(OrbitCommand(OrbitCommand(c0, Left), Left), Left), Right);
            c1 == Camera(20, 0, 1) && Steps(c1, n) == Camera(20 + n, 0, 1)
  {
    var c := OrbitCommand(OrbitCommand(InitialCamera, Right), Right);
    assert c == Camera(0, 30, 1);
    ClimbsTowardTarget(0, 30, 20);
    AwayFromZeroNeverStops(20, n);
  }

  // ---------------------------------------------------------------------
  // Game state and the key handlers

  /** The player's movement hooks. `startMove`, `stopMove` and `jump` are
      not defined by the sprite, so the model records the calls. The sign is
      that of the movement along the chosen axis. */
  datatype PlayerEvent = StartMove(sign: int) | StopMove | Jump

  /** What the handlers change: the orbit state and the calls made on the
      player so far. */
  datatype Controls = Controls(camera: Camera, playerEvents: seq<PlayerEvent>)

  /** `keydown`: unmapped codes and every action but moving and jumping do
      nothing; player-left starts a move with sign +1, player-right with
      sign -1, player-jump calls `jump`. The camera never changes. */
  function OnKeyDown(s: Controls, keyCode: int): (r: Controls)
    ensures r.camera == s.camera
    ensures ActionOf(keyCode) == Some(PlayerLeft) ==> r.playerEvents == s.playerEvents + [StartMove(1)]
    ensures ActionOf(keyCode) == Some(PlayerRight) ==> r.playerEvents == s.playerEvents + [StartMove(-1)]
    ensures ActionOf(keyCode) == Some(PlayerJump) ==> r.playerEvents == s.playerEvents + [Jump]
    ensures ActionOf(keyCode) !in {Some(PlayerLeft), Some(PlayerRight), Some(PlayerJump)} ==> r == s
  {
    match ActionOf(keyCode)
    case None => s
    case Some(action) =>
      if action == PlayerLeft || action == PlayerRight then
        var negation := if action == PlayerRight then -1 else 1;
        s.(playerEvents := s.playerEvents + [StartMove(negation)])
      else if action == PlayerJump then
        s.(playerEvents := s.playerEvents + [Jump])
      else
        s
  }

  /** `keyup`: unmapped codes do nothing; orbit-left and orbit-right issue
      the orbit command of their direction; player-left and player-right
      call `stopMove`; jump and down do nothing. */
  function OnKeyUp(s: Controls, keyCode: int): (r: Controls)
    ensures ActionOf(keyCode) == Some(OrbitLeft) ==> r == s.(camera := OrbitCommand(s.camera, Left))
    ensures ActionOf(keyCode) == Some(OrbitRight) ==> r == s.(camera := OrbitCommand(s.camera, Right))
    ensures ActionOf(keyCode) in {Some(PlayerLeft), Some(PlayerRight)} ==>
              r == s.(playerEvents := s.playerEvents + [StopMove])
    ensures ActionOf(keyCode) in {None, Some(PlayerJump), Some(PlayerDown)} ==> r == s
  {
    match ActionOf(keyCode)
    case None => s
    case Some(action) =>
      var s' := match OrbitDirection(action)
                case Some(d) => s.(camera := OrbitCommand(s.camera, d))
                case None => s;
      if action == PlayerLeft || action == PlayerRight then
        s'.(playerEvents := s'.playerEvents + [StopMove])
      else
        s'
  }

  /** The key handlers keep the orbit invariant. */
  lemma KeyHandlersKeepInvariant(s: Controls, keyCode: int)
    requires CameraInvariant(s.camera)
    ensures CameraInvariant(OnKeyDown(s, keyCode).camera)
    ensures CameraInvariant(OnKeyUp(s, keyCode).camera)
  {
    match ActionOf(keyCode)
    case Some(OrbitLeft) => OrbitCommandKeepsInvariant(s.camera, Left);
    case Some(OrbitRight) => OrbitCommandKeepsInvariant(s.camera, Right);
    case _ =>
  }

  /** The actions of the six mapped key codes. */
  lemma KeyCodeActions()
    ensures ActionOf(37) == Some(PlayerLeft) && ActionOf(38) == Some(PlayerJump)
    ensures ActionOf(39) == Some(PlayerRight) && ActionOf(40) == Some(PlayerDown)
    ensures ActionOf(65) == Some(OrbitLeft) && ActionOf(83) == Some(OrbitRight)
  {
  }

  /** The key table in use: 65 and 83 orbit left and right on release, 37
      and 39 stop the player on release and start it with signs +1 and -1 on
      press, 38 jumps on press, and 40 does nothing either way. */
  lemma KeyBindings(s: Controls)
    ensures OnKeyUp(s, 65).camera == OrbitCommand(s.camera, Left)
    ensures OnKeyUp(s, 83).camera == OrbitCommand(s.camera, Right)
    ensures OnKeyUp(s, 37) == OnKeyUp(s, 39) == s.(playerEvents := s.playerEvents + [StopMove])
    ensures OnKeyDown(s, 37).playerEvents == s.playerEvents + [StartMove(1)]
    ensures OnKeyDown(s, 39).playerEvents == s.playerEvents + [StartMove(-1)]
    ensures OnKeyDown(s, 38).playerEvents == s.playerEvents + [Jump]
    ensures OnKeyDown(s, 40) == OnKeyUp(s, 40) == s
  {
    KeyCodeActions();
  }

  /** The game object's orbit fields and the record of calls on the player. */
  class Game {
    var cameraAngle: int
    var cameraTargetAngle: int
    var cameraOrbitSpeed: int
    var playerEvents: seq<PlayerEvent>

    function CameraState(): Camera
      reads this
    {
      Camera(cameraAngle, cameraTargetAngle, cameraOrbitSpeed)
    }

    function State(): Controls
      reads this
    {
      Controls(CameraState(), playerEvents)
    }

    ghost predicate Valid()
      reads this
    {
      CameraInvariant(CameraState())
    }

    /** A new game: camera at angle 0, aimed at 0, idle; no player calls. */
    constructor()
      ensures Valid()
      ensures State() == Controls(InitialCamera, [])
    {
      cameraAngle, cameraTargetAngle, cameraOrbitSpeed := 0, 0, 0;
      playerEvents := [];
    }

    /** `orbit(direction)`. */
    method Orbit(direction: Direction)
      requires Valid()
      modifies this
      ensures Valid()
      ensures State() == old(State()).(camera := OrbitCommand(old(CameraState()), direction))
    {
      OrbitCommandKeepsInvariant(CameraState(), direction);
      if direction == Left {
        cameraOrbitSpeed := -BaseSpeed;
        cameraTargetAngle := cameraTargetAngle - AngleDelta;
      } else {
        cameraOrbitSpeed := BaseSpeed;
        cameraTargetAngle := cameraTargetAngle + AngleDelta;
      }
    }

    /** `_orbitStep(tFrame)`, without the camera placement. */
    method OrbitStep()
      requires Valid()
      modifies this
      ensures Valid()
      ensures State() == old(State()).(camera := StepOrbit(old(CameraState())))
    {
      StepOrbitKeepsInvariant(CameraState());
      if cameraOrbitSpeed == 0 {
        // not orbiting
      } else if Abs(Abs(cameraTargetAngle) - Abs(cameraAngle)) == 0 {
        cameraTargetAngle := Rem(cameraTargetAngle, FullTurn);
        cameraAngle := cameraTargetAngle;
        cameraOrbitSpeed := 0;
      } else {
        cameraAngle := cameraAngle + cameraOrbitSpeed;
      }
    }

    /** `keydown(evt)`. */
    method KeyDown(keyCode: int)
      requires Valid()
      modifies this
      ensures Valid()
      ensures State() == OnKeyDown(old(State()), keyCode)
    {
      var action := ActionOf(keyCode);
      if action.None? {
        return;
      }
      if action.value == PlayerLeft || action.value == PlayerRight {
        var negation := if action.value == PlayerRight then -1 else 1;
        playerEvents := playerEvents + [StartMove(negation)];
      }
      if action.value == PlayerJump {
        playerEvents := playerEvents + [Jump];
      }
    }

    /** `keyup(evt)`. */
    method KeyUp(keyCode: int)
      requires Valid()
      modifies this
      ensures Valid()
      ensures State() == OnKeyUp(old(State()), keyCode)
    {
      var action := ActionOf(keyCode);
      if action.None? {
        return;
      }
      var direction := OrbitDirection(action.value);
      if direction.Some? {
        Orbit(direction.value);
      }
      if action.value == PlayerLeft || action.value == PlayerRight {
        playerEvents := playerEvents + [StopMove];
      }
    }
  }
}
