/** How long a released player glides (2_3d_pacman/src/game/Player.js):
    friction 0.95 per update from full speed 0.1 leaves the player moving for
    exactly 45 updates. Kept apart from the `Player` module because the
    real-power facts here only concern repeated updates. */
module PlayerGlide {
  import opened Geometry
  import PacmanConfig
  import opened Player

  function Pow(x: real, n: nat): real
  {
    if n == 0 then 1.0 else x * Pow(x, n - 1)
  }

  /** `n` updates in a row. */
  function Iterate(p: Player, n: nat): Player
  {
    if n == 0 then p else Update(Iterate(p, n - 1))
  }

  /** A speed after `n` applications of the friction factor. */
  function Decayed(s: real, n: nat): real
  {
    if n == 0 then s else Friction * Decayed(s, n - 1)
  }

  /** While the decayed speed stays at 0.01 or more, the player keeps moving
      along the same direction and its speed after `n` updates is the
      starting speed decayed `n` times. */
  lemma {:induction false} Glide(p: Player, n: nat)
    requires Inv(p) && p.moving
    requires Decayed(Speed(p), n) >= StopSpeed
    ensures Inv(Iterate(p, n)) && Iterate(p, n).moving
    ensures Iterate(p, n).direction == p.direction
    ensures Speed(Iterate(p, n)) == Decayed(Speed(p), n)
  {
    if n > 0 {
      Glide(p, n - 1);
      UpdateKeepsInv(Iterate(p, n - 1));
    }
  }

  lemma {:induction false} DecayedIsPower(s: real, n: nat)
    ensures Decayed(s, n) == s * Pow(Friction, n)
  {
    if n > 0 {
      DecayedIsPower(s, n - 1);
      assert Friction * (s * Pow(Friction, n - 1)) == s * (Friction * Pow(Friction, n - 1));
    }
  }

  lemma {:induction false} PowAdd(x: real, a: nat, b: nat)
    ensures Pow(x, a + b) == Pow(x, a) * Pow(x, b)
    decreases a
  {
    if a > 0 {
      PowAdd(x, a - 1, b);
    }
  }

  /** 0.95^44 is above 0.1 and 0.95^45 below it. */
  lemma FrictionThreshold()
    ensures Pow(Friction, 44) > 0.1 > Pow(Friction, 45)
  {
    assert Pow(Friction, 1) == 0.95;
    assert Pow(Friction, 2) == 0.9025;
    assert Pow(Friction, 3) == 0.857375;
    assert Pow(Friction, 4) == 0.81450625;
    assert Pow(Friction, 5) == 0.7737809375;
    PowAdd(Friction, 5, 5);
    PowAdd(Friction, 10, 10);
    PowAdd(Friction, 20, 20);
    PowAdd(Friction, 40, 4);
    PowAdd(Friction, 40, 5);
  }

  /** Full speed decayed 44 times is still at least 0.01; decayed 45 times
      it is below. */
  lemma FullSpeedThreshold()
    ensures Decayed(PacmanConfig.PlayerSpeed, 44) >= StopSpeed
    ensures Decayed(PacmanConfig.PlayerSpeed, 45) < StopSpeed
  {
    FrictionThreshold();
    DecayedIsPower(PacmanConfig.PlayerSpeed, 44);
    DecayedIsPower(PacmanConfig.PlayerSpeed, 45);
  }

  lemma SlowPlayerStops(p: Player)
    requires Inv(p) && p.moving && Friction * Speed(p) < StopSpeed
    ensures !Update(p).moving && Update(p).velocity == Zero
  {
    UpdateKeepsInv(p);
  }

  /** A direction key sets a moving player off at full speed. */
  lemma KeyStartsAtFullSpeed(p: Player, key: string)
    requires Inv(p) && KeyDirection(key).Some?
    ensures Inv(HandleInput(p, key)) && HandleInput(p, key).moving
    ensures Speed(HandleInput(p, key)) == PacmanConfig.PlayerSpeed
  {
    CompassScale(KeyDirection(key).value, PacmanConfig.PlayerSpeed);
  }

  /** A player moving at full speed glides for exactly 45 updates: still
      moving after 44, stopped with zero velocity after 45. A direction key
      always starts such a glide (`KeyStartsAtFullSpeed`). */
  lemma StopsAfter45Updates(q: Player)
    requires Inv(q) && q.moving && Speed(q) == PacmanConfig.PlayerSpeed
    ensures Iterate(q, 44).moving
    ensures !Iterate(q, 45).moving
    ensures Iterate(q, 45).velocity == Zero
  {
    FullSpeedThreshold();
    Glide(q, 44);
    var r := Iterate(q, 44);
    assert Friction * Speed(r) == Decayed(Speed(q), 45);
    SlowPlayerStops(r);
    assert Iterate(q, 45) == Update(r);
  }
}
