/** The bird of the scrolling flappy game (3d-flappy-bird/src/entities/Bird.js):
    vertical velocity with gravity and a climb/descent clamp, and a height kept
    between the floor band and the sky. Mesh construction, tilt damping and
    wing animation are visual and not modelled. */
module Bird {
  import opened Basics
  import opened Geometry
  import opened FlappyConfig

  datatype Bird = Bird(velocity: real, combo: int, pos: Vec3)

  const StartPos: Vec3 := Vec3(-6.0, 0.0, 0.0)

  /** Velocity within the clamp and height within the flight band. */
  predicate InFlight(b: Bird)
  {
    && MaxDescent <= b.velocity <= MaxAscent
    && BirdFloor <= b.pos.y <= SkyLevel
  }

  /** Back at the start position, at rest. */
  function Reset(b: Bird): (r: Bird)
    ensures r.velocity == 0.0 && r.combo == 0 && r.pos == StartPos
    ensures InFlight(r)
  {
    Bird(0.0, 0, StartPos)
  }

  /** A flap adds the flap strength to the velocity, capped at the climb
      limit. It never slows a bird that is within the cap. */
  function Flap(b: Bird): (r: Bird)
    ensures r.velocity <= MaxAscent
    ensures r.velocity == b.velocity + FlapStrength || r.velocity == MaxAscent
    ensures b.velocity <= MaxAscent ==> b.velocity <= r.velocity
    ensures r.pos == b.pos && r.combo == b.combo
    ensures InFlight(b) ==> InFlight(r)
  {
    b.(velocity := Min(b.velocity + FlapStrength, MaxAscent))
  }

  /** One frame of `delta` seconds: gravity, the velocity clamp, then the
      height integrated with the already clamped velocity and clamped to the
      flight band. Whatever the frame length, the bird ends in flight. */
  function Update(b: Bird, delta: real): (r: Bird)
    ensures InFlight(r)
    ensures r.pos.x == b.pos.x && r.pos.z == b.pos.z && r.combo == b.combo
    ensures MaxDescent <= b.velocity + Gravity * delta <= MaxAscent ==>
      r.velocity == b.velocity + Gravity * delta
    ensures b.velocity + Gravity * delta < MaxDescent ==> r.velocity == MaxDescent
    ensures b.velocity + Gravity * delta > MaxAscent ==> r.velocity == MaxAscent
    ensures BirdFloor <= b.pos.y + r.velocity * delta <= SkyLevel ==>
      r.pos.y == b.pos.y + r.velocity * delta
    ensures b.pos.y + r.velocity * delta < BirdFloor ==> r.pos.y == BirdFloor
    ensures b.pos.y + r.velocity * delta > SkyLevel ==> r.pos.y == SkyLevel
  {
    var v := Clamp(b.velocity + Gravity * delta, MaxDescent, MaxAscent);
    var y := Clamp(b.pos.y + v * delta, BirdFloor, SkyLevel);
    Bird(v, b.combo, b.pos.(y := y))
  }

  /** A bird in free fall for a positive frame never gains speed upwards. */
  lemma FallingSlowsClimb(b: Bird, delta: real)
    requires InFlight(b) && delta >= 0.0
    ensures Update(b, delta).velocity <= b.velocity
  {
  }
}
