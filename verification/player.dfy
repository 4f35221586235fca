/** Pac-Man himself (2_3d_pacman/src/game/Player.js): a key sets a direction
    and a velocity of full speed along it; every update adds the velocity to
    the position and applies friction 0.95, stopping the player once the speed
    falls below 0.01. Mouth and eye animation and the death animation are
    rendering and are not modelled. */
module Player {
  import opened Basics
  import opened Geometry
  import PacmanConfig

  const Friction: real := 0.95
  /** The player stops when the velocity's length is below 0.01. */
  const StopSpeed: real := 0.01
  const StopSpeedSq: real := 0.0001
  const StartPos: Vec3 := Vec3(0.0, 0.5, 0.0)
  const Height: real := 0.5

  datatype Player = Player(pos: Vec3, velocity: Vec3, direction: Vec3, moving: bool)

  /** The four unit directions a key can select. */
  predicate IsCompass(d: Vec3)
  {
    d == Vec3(1.0, 0.0, 0.0) || d == Vec3(-1.0, 0.0, 0.0) || d == Vec3(0.0, 0.0, 1.0) || d == Vec3(0.0, 0.0, -1.0)
  }

  /** The component of `v` along the compass direction `d`. */
  function AlongSpeed(v: Vec3, d: Vec3): real
  {
    if d == Vec3(1.0, 0.0, 0.0) then v.x
    else if d == Vec3(-1.0, 0.0, 0.0) then -v.x
    else if d == Vec3(0.0, 0.0, 1.0) then v.z
    else -v.z
  }

  /** `v` has no component across the compass direction `d`. */
  predicate OnAxis(v: Vec3, d: Vec3)
  {
    v.y == 0.0 && (d.x == 0.0 ==> v.x == 0.0) && (d.z == 0.0 ==> v.z == 0.0)
  }

  function Speed(p: Player): real
  {
    AlongSpeed(p.velocity, p.direction)
  }

  /** The velocity always points along the facing direction with a speed of
      at most the configured one, is zero while the player is idle, and the
      player stays at the height of the floor plane. */
  predicate Inv(p: Player)
  {
    && IsCompass(p.direction)
    && p.pos.y == Height
    && 0.0 <= Speed(p) <= PacmanConfig.PlayerSpeed
    && OnAxis(p.velocity, p.direction)
    && (!p.moving ==> p.velocity == Zero)
  }

  function New(): (p: Player)
    ensures Inv(p) && !p.moving && p.pos == StartPos
    ensures p.direction == Vec3(1.0, 0.0, 0.0) && p.velocity == Zero
  {
    Player(StartPos, Zero, Vec3(1.0, 0.0, 0.0), false)
  }

  /** The direction a key selects: arrows or WASD, up being -z. */
  function KeyDirection(key: string): (r: Option<Vec3>)
    ensures r.Some? <==> key in {"ArrowUp", "w", "ArrowDown", "s", "ArrowLeft", "a", "ArrowRight", "d"}
    ensures r.Some? ==> IsCompass(r.value)
  {
    if key == "ArrowUp" || key == "w" then Some(Vec3(0.0, 0.0, -1.0))
    else if key == "ArrowDown" || key == "s" then Some(Vec3(0.0, 0.0, 1.0))
    else if key == "ArrowLeft" || key == "a" then Some(Vec3(-1.0, 0.0, 0.0))
    else if key == "ArrowRight" || key == "d" then Some(Vec3(1.0, 0.0, 0.0))
    else None
  }

  lemma CompassScale(d: Vec3, s: real)
    requires IsCompass(d)
    ensures OnAxis(Scale(d, s), d) && AlongSpeed(Scale(d, s), d) == s
  {
  }

  /** On an axis, the squared length is the square of the speed along it. */
  lemma AxisLength(v: Vec3, d: Vec3, s: real)
    requires IsCompass(d) && OnAxis(v, d) && AlongSpeed(v, d) == s
    ensures LengthSq(v) == s * s
  {
  }

  /** `handleInput`: any key starts the player moving; a direction key also
      turns it and sets full speed, any other key leaves the motion alone. */
  function HandleInput(p: Player, key: string): (r: Player)
    ensures r.moving && r.pos == p.pos
    ensures KeyDirection(key).Some? ==>
      r.direction == KeyDirection(key).value && r.velocity == Scale(r.direction, PacmanConfig.PlayerSpeed)
    ensures KeyDirection(key).None? ==> r == p.(moving := true)
    ensures Inv(p) ==> Inv(r)
  {
    match KeyDirection(key)
    case Some(d) =>
      CompassScale(d, PacmanConfig.PlayerSpeed);
      p.(moving := true, direction := d, velocity := Scale(d, PacmanConfig.PlayerSpeed))
    case None => p.(moving := true)
  }

  lemma PositiveProduct(x: real, y: real)
    requires x > 0.0 && y > 0.0
    ensures x * y > 0.0
  {
  }

  lemma SquareBelow(a: real, b: real)
    requires 0.0 <= a && 0.0 <= b
    ensures a < b <==> a * a < b * b
  {
    assert b * b - a * a == (b - a) * (b + a);
    if a < b {
      PositiveProduct(b - a, b + a);
    } else if b < a {
      PositiveProduct(a - b, b + a);
    }
  }

  /** `update`: an idle player stays put; a moving one advances by its
      velocity, slows by the friction factor and stops once too slow. */
  function Update(p: Player): (r: Player)
    ensures !p.moving ==> r == p
    ensures p.moving ==> r.pos == Add(p.pos, p.velocity) && r.direction == p.direction
    ensures p.moving ==> (r.moving <==> LengthSq(Scale(p.velocity, Friction)) >= StopSpeedSq)
    ensures p.moving ==> r.velocity == (if r.moving then Scale(p.velocity, Friction) else Zero)
  {
    if !p.moving then p
    else
      var v := Scale(p.velocity, Friction);
      var moved := p.(pos := Add(p.pos, p.velocity));
      if LengthSq(v) < StopSpeedSq then moved.(velocity := Zero, moving := false)
      else moved.(velocity := v)
  }

  /** Updates keep the invariant; a moving player goes on moving exactly when
      the slowed speed is still at least 0.01, and its speed is then the old
      one times the friction factor. */
  lemma UpdateKeepsInv(p: Player)
    requires Inv(p)
    ensures Inv(Update(p))
    ensures p.moving ==> (Update(p).moving <==> Friction * Speed(p) >= StopSpeed)
    ensures p.moving && Update(p).moving ==> Speed(Update(p)) == Friction * Speed(p)
  {
    if p.moving {
      var v := Scale(p.velocity, Friction);
      StopTest(p);
      ScaleOnAxis(p.velocity, p.direction, Friction);
      var moved := p.(pos := Add(p.pos, p.velocity));
      if LengthSq(v) < StopSpeedSq {
        StepKeepsInv(p, Zero, false);
        assert Update(p) == moved.(velocity := Zero, moving := false);
      } else {
        StepKeepsInv(p, v, true);
        assert Update(p) == moved.(velocity := v);
      }
    }
  }

  /** The length test `update` makes on the slowed velocity is the speed
      test on the slowed speed. */
  lemma StopTest(p: Player)
    requires Inv(p)
    ensures LengthSq(Scale(p.velocity, Friction)) < StopSpeedSq <==> Friction * Speed(p) < StopSpeed
  {
    AxisLength(p.velocity, p.direction, Speed(p));
    SlowedStop(p.velocity, Speed(p));
  }

  /** For a velocity of length `a`, the stop test on the slowed velocity is
      the test on the slowed speed. */
  lemma SlowedStop(v: Vec3, a: real)
    requires LengthSq(v) == a * a && 0.0 <= a
    ensures LengthSq(Scale(v, Friction)) < StopSpeedSq <==> Friction * a < StopSpeed
  {
    ScaledLength(v);
    SlowSquare(a);
  }

  /** Slowing by the friction factor scales the squared length by its square. */
  lemma ScaledLength(v: Vec3)
    ensures LengthSq(Scale(v, Friction)) == Friction * Friction * LengthSq(v)
  {
  }

  /** The stopping test on squares agrees with the test on speeds. */
  lemma SlowSquare(a: real)
    requires 0.0 <= a
    ensures Friction * Friction * (a * a) < StopSpeedSq <==> Friction * a < StopSpeed
  {
    SquareBelow(Friction * a, StopSpeed);
  }

  /** Advancing by the velocity and taking a new velocity on the same axis,
      no faster than before, keeps the invariant. */
  lemma StepKeepsInv(p: Player, v: Vec3, moving: bool)
    requires Inv(p)
    requires OnAxis(v, p.direction) && 0.0 <= AlongSpeed(v, p.direction) <= Speed(p)
    requires !moving ==> v == Zero
    ensures Inv(p.(pos := Add(p.pos, p.velocity), velocity := v, moving := moving))
  {
    assert p.velocity.y == 0.0;
  }

  /** Scaling a velocity keeps it on its axis and scales its speed. */
  lemma ScaleOnAxis(v: Vec3, d: Vec3, k: real)
    requires IsCompass(d) && OnAxis(v, d)
    ensures OnAxis(Scale(v, k), d)
    ensures AlongSpeed(Scale(v, k), d) == k * AlongSpeed(v, d)
  {
  }

  /** `UpdateKeepsInv` as an implication, for callers that may not know the
      invariant holds. */
  lemma UpdateKeepsInvIf(p: Player)
    ensures Inv(p) ==> Inv(Update(p))
  {
    if Inv(p) {
      UpdateKeepsInv(p);
    }
  }
}
