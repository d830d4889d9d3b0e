/** A rotating ring with a gap (src/entities/ring.py). The ring turns until it is
    destroyed; the ball escapes through the gap, whose position is the ring's rotation.
    The ring's colour and `draw` are not part of this model. */
module Rings {
  import opened Vectors
  import opened Angles
  import opened Particles
  import opened Maths

  /** `gap_tolerance`: the gap accepts angles slightly beyond its drawn edges. */
  const GapTolerance: real := 0.1
  /** `destruction_particles`: how many particles a destroyed ring bursts into. */
  const DestructionParticleCount: nat := 100

  /** How far either side of the ring's rotation the gap test reaches. */
  function Window(gapSize: real): real {
    gapSize / 2.0 + GapTolerance
  }

  /** `is_ball_in_gap(ball_angle)` of a ring at `rotation` whose gap is `gapSize` wide:
      the angle relative to the rotation, taken modulo 2π, lies within the tolerant
      half-gap of 0 or of 2π. */
  predicate InGap(ballAngle: real, rotation: real, gapSize: real) {
    var d := Wrap(ballAngle - rotation);
    var half := gapSize / 2.0;
    d <= half + GapTolerance || d >= TwoPi - half - GapTolerance
  }

  /** The ball's angle lies within `Window(gapSize)` of the ring's rotation turned by
      k whole turns. */
  predicate NearGapCentre(ballAngle: real, rotation: real, gapSize: real, k: int) {
    -Window(gapSize) <= ballAngle - rotation - (k as real) * TwoPi <= Window(gapSize)
  }

  /** The gap is the set of angles within `Window(gapSize)` of the rotation, up to
      whole turns, as long as the window is narrower than a full turn. */
  lemma InGapIffNearGapCentre(ballAngle: real, rotation: real, gapSize: real)
    requires Window(gapSize) < TwoPi
    ensures InGap(ballAngle, rotation, gapSize) <==>
            exists k: int :: NearGapCentre(ballAngle, rotation, gapSize, k)
  {
    var e := ballAngle - rotation;
    var w := Window(gapSize);
    var d := Wrap(e);
    var t := Turns(e);
    if d <= w {
      assert NearGapCentre(ballAngle, rotation, gapSize, t);
    } else if d >= TwoPi - w {
      assert NearGapCentre(ballAngle, rotation, gapSize, t + 1);
    } else {
      forall k: int
        ensures !NearGapCentre(ballAngle, rotation, gapSize, k)
      {
        var f := e - (k as real) * TwoPi;
        if 0.0 <= f <= w {
          WrapUnique(e, f, k);
        } else if -w <= f < 0.0 {
          WrapUnique(e, f + TwoPi, k - 1);
        }
      }
    }
  }

  /** Turning the ball's angle by whole turns does not move it in or out of the gap. */
  lemma InGapShiftAngle(ballAngle: real, rotation: real, gapSize: real, k: int)
    ensures InGap(ballAngle + (k as real) * TwoPi, rotation, gapSize) == InGap(ballAngle, rotation, gapSize)
  {
    assert ballAngle + (k as real) * TwoPi - rotation == (ballAngle - rotation) + (k as real) * TwoPi;
    WrapShift(ballAngle - rotation, k);
  }

  /** Neither does turning the ring by whole turns. */
  lemma InGapShiftRotation(ballAngle: real, rotation: real, gapSize: real, k: int)
    ensures InGap(ballAngle, rotation + (k as real) * TwoPi, gapSize) == InGap(ballAngle, rotation, gapSize)
  {
    var j := -k;
    assert ballAngle - (rotation + (k as real) * TwoPi) == (ballAngle - rotation) + (j as real) * TwoPi;
    WrapShift(ballAngle - rotation, j);
    assert Wrap(ballAngle - (rotation + (k as real) * TwoPi)) == Wrap(ballAngle - rotation);
  }

  /** The gap is a proper window: its centre is in it, and the opposite side of the ring
      is not, whenever the window is narrower than half a turn. */
  lemma GapIsProperWindow(rotation: real, gapSize: real)
    requires 0.0 <= Window(gapSize) < Pi
    ensures InGap(rotation, rotation, gapSize)
    ensures !InGap(rotation + Pi, rotation, gapSize)
  {
    WrapInRange(0.0);
    assert rotation + Pi - rotation == Pi;
    WrapInRange(Pi);
  }

  /** The ball is in the ring's collision band: its distance from the centre is within
      half the ring spacing plus the ball's radius of the ring's radius. */
  predicate InBand(distance: real, radius: real, spacing: real, ballRadius: real) {
    radius - spacing / 2.0 - ballRadius <= distance <= radius + spacing / 2.0 + ballRadius
  }

  /** What `check_collision` returns: whether the ball hit the ring, and the surface
      normal. */
  datatype Hit = Hit(collided: bool, normal: Vector2)

  /** The random values drawn for one destruction particle. */
  datatype ParticleDraw = ParticleDraw(angle: real, speed: real, lifetime: real)

  /** The ranges of the `random.uniform` calls in `create_destruction_particles`. */
  predicate DrawInRange(d: ParticleDraw) {
    0.0 <= d.angle <= TwoPi && 100.0 <= d.speed <= 300.0 && 0.5 <= d.lifetime <= 1.5
  }

  /** The particle created from one draw: on the ring at the drawn angle, moving outward
      at the drawn speed. */
  function DestructionState(center: Vector2, radius: real, d: ParticleDraw, m: MathLib): ParticleState {
    var direction := Vector2(m.cos(d.angle), m.sin(d.angle));
    ParticleState(Add(center, Scale(direction, radius)), Scale(direction, d.speed), d.lifetime, d.lifetime)
  }

  /** A destruction particle starts on the ring's circle, moves straight away from the
      centre at a speed in [100, 300], and lives between 0.5 and 1.5 seconds. */
  lemma DestructionStateShape(center: Vector2, radius: real, d: ParticleDraw, m: MathLib)
    requires m.Valid() && DrawInRange(d) && radius >= 0.0
    ensures var s := DestructionState(center, radius, d, m);
      && IsLength(Sub(s.pos, center), radius)
      && IsLength(s.vel, d.speed) && 100.0 <= d.speed <= 300.0
      && Dot(s.vel, Sub(s.pos, center)) == d.speed * radius
      && 0.5 <= s.lifetime <= 1.5 && s.maxLifetime == s.lifetime
  {
    var u := Vector2(m.cos(d.angle), m.sin(d.angle));
    UnitDirection(m, d.angle);
    OutwardParticle(center, u, radius, d.speed);
  }

  lemma OutwardParticle(center: Vector2, u: Vector2, radius: real, speed: real)
    requires IsLength(u, 1.0) && radius >= 0.0 && speed >= 0.0
    ensures Sub(Add(center, Scale(u, radius)), center) == Scale(u, radius)
    ensures IsLength(Scale(u, radius), radius) && IsLength(Scale(u, speed), speed)
    ensures Dot(Scale(u, speed), Scale(u, radius)) == speed * radius
  {
    ScaledUnitLength(u, radius);
    ScaledUnitLength(u, speed);
    calc {
      Dot(Scale(u, speed), Scale(u, radius));
      (u.x * speed) * (u.x * radius) + (u.y * speed) * (u.y * radius);
      speed * radius * LengthSq(u);
      speed * radius;
    }
  }

  predicate Distinct<T(==)>(s: seq<T>) {
    forall i, j :: 0 <= i < j < |s| ==> s[i] != s[j]
  }

  /** `[p for p in ps if p.update(dt)]` read after the updates: the particles still alive,
      in their original order. */
  function Survivors(ps: seq<Particle>): seq<Particle>
    reads set p | p in ps
    decreases |ps|
  {
    if ps == [] then []
    else
      var last := ps[|ps| - 1];
      Survivors(ps[..|ps| - 1]) + (if last.lifetime > 0.0 then [last] else [])
  }

  /** The survivors are exactly the particles of `ps` that are alive, and no particle
      appears among them twice if it did not in `ps`. */
  lemma {:induction false} SurvivorsAreTheLiving(ps: seq<Particle>)
    ensures forall i :: 0 <= i < |Survivors(ps)| ==> Survivors(ps)[i] in ps && Alive(Survivors(ps)[i].State())
    ensures forall i :: 0 <= i < |ps| && Alive(ps[i].State()) ==> ps[i] in Survivors(ps)
    ensures Distinct(ps) ==> Distinct(Survivors(ps))
    decreases |ps|
  {
    if ps != [] {
      var front := ps[..|ps| - 1];
      var last := ps[|ps| - 1];
      SurvivorsAreTheLiving(front);
      assert forall i :: 0 <= i < |front| ==> front[i] == ps[i];
      assert forall q :: q in front ==> q in ps;
      if Distinct(ps) {
        assert last !in front;
      }
    }
  }

  /** Every particle of ps has been updated once by dt. */
  twostate predicate AllStepped(ps: seq<Particle>, dt: real)
    reads set p | p in ps
  {
    forall k :: 0 <= k < |ps| ==> ps[k].State() == Step(old(ps[k].State()), dt)
  }

  /** `[p for p in ps if p.update(dt)]`: every particle is updated once, in order, and
      the list of those whose update returned True is the result. */
  method UpdateParticles(ps: seq<Particle>, dt: real) returns (kept: seq<Particle>)
    requires Distinct(ps)
    modifies set p | p in ps
    ensures AllStepped(ps, dt)
    ensures kept == Survivors(ps)
    ensures Distinct(kept)
  {
    kept := [];
    var i := 0;
    while i < |ps|
      invariant 0 <= i <= |ps|
      invariant forall k :: 0 <= k < i ==> ps[k].State() == Step(old(ps[k].State()), dt)
      invariant forall k :: i <= k < |ps| ==> ps[k].State() == old(ps[k].State())
      invariant kept == Survivors(ps[..i])
    {
      var p := ps[i];
      assert p !in ps[..i];
      var alive := p.Update(dt);
      assert ps[..i + 1][..i] == ps[..i];
      if alive {
        kept := kept + [p];
      }
      i := i + 1;
    }
    assert ps[..i] == ps;
    SurvivorsAreTheLiving(ps);
  }

  /** The rotation of a ring after `update(dt, rotation_speed)`: a destroyed ring has
      stopped turning. */
  function Turned(rotation: real, destroyed: bool, speed: real, dt: real): real {
    if destroyed then rotation else rotation + speed * dt
  }

  class Ring {
    const center: Vector2
    const radius: real
    const gapSize: real
    const thickness: real
    var rotation: real
    var destroyed: bool
    var particles: seq<Particle>

    /** No particle is listed twice, so each is updated once per frame. */
    ghost predicate Valid()
      reads this
    {
      Distinct(particles)
    }

    constructor(center: Vector2, radius: real, rotation: real, gapSize: real, thickness: real)
      ensures this.center == center && this.radius == radius && this.rotation == rotation
      ensures this.gapSize == gapSize && this.thickness == thickness
      ensures !destroyed && particles == [] && Valid()
    {
      this.center := center;
      this.radius := radius;
      this.rotation := rotation;
      this.gapSize := gapSize;
      this.thickness := thickness;
      this.destroyed := false;
      this.particles := [];
    }

    /** `create_destruction_particles()`: appends one particle per draw after the
        existing ones; the ring itself does not change. */
    method CreateDestructionParticles(draws: seq<ParticleDraw>, m: MathLib)
      requires Valid()
      requires |draws| == DestructionParticleCount
      requires forall d :: d in draws ==> DrawInRange(d)
      modifies this
      ensures Valid()
      ensures rotation == old(rotation) && destroyed == old(destroyed)
      ensures |particles| == |old(particles)| + DestructionParticleCount
      ensures particles[..|old(particles)|] == old(particles)
      ensures forall k :: |old(particles)| <= k < |particles| ==>
                fresh(particles[k]) && particles[k].State() == DestructionState(center, radius, draws[k - |old(particles)|], m)
    {
      var n := |particles|;
      var i := 0;
      while i < DestructionParticleCount
        invariant 0 <= i <= DestructionParticleCount
        invariant Valid()
        invariant rotation == old(rotation) && destroyed == old(destroyed)
        invariant |particles| == n + i && particles[..n] == old(particles)
        invariant forall k :: n <= k < |particles| ==>
                    fresh(particles[k]) && particles[k].State() == DestructionState(center, radius, draws[k - n], m)
      {
        var d := draws[i];
        var direction := Vector2(m.cos(d.angle), m.sin(d.angle));
        var pos := Add(center, Scale(direction, radius));
        var vel := Scale(direction, d.speed);
        var p := new Particle(pos, vel, d.lifetime);
        particles := particles + [p];
        i := i + 1;
      }
    }

    /** `update(dt, rotation_speed)`: a ring turns only while it is not destroyed; every
        particle is updated once, and exactly those still alive are kept, in order. */
    method Update(dt: real, rotationSpeed: real)
      requires Valid()
      modifies this, set p | p in particles
      ensures Valid()
      ensures rotation == Turned(old(rotation), old(destroyed), rotationSpeed, dt)
      ensures destroyed == old(destroyed)
      ensures AllStepped(old(particles), dt)
      ensures particles == Survivors(old(particles))
    {
      if !destroyed {
        rotation := rotation + rotationSpeed * dt;
      }
      particles := UpdateParticles(particles, dt);
    }

    /** `check_collision(ball_pos, ball_radius)`, with the ring spacing that
        `CONFIG['spacing']` holds: the ball hits the ring when it is in the collision band
        and not in the gap, and the normal is then the direction from the ball to the
        centre; otherwise there is no hit and the normal is zero. */
    function CheckCollision(ballPos: Vector2, ballRadius: real, spacing: real, m: MathLib): (h: Hit)
      reads this
      requires m.Valid()
      ensures h.collided <==>
                InBand(Length(Sub(center, ballPos), m.sqrt), radius, spacing, ballRadius) &&
                !InGap(m.atan2(center.y - ballPos.y, center.x - ballPos.x), rotation, gapSize)
      ensures !h.collided ==> h.normal == Zero
      ensures h.collided ==> h.normal == Normalize(Sub(center, ballPos), m.sqrt)
    {
      var toCenter := Sub(center, ballPos);
      var distance := Length(toCenter, m.sqrt);
      var outerRadius := radius + spacing / 2.0;
      var innerRadius := radius - spacing / 2.0;
      if innerRadius - ballRadius <= distance <= outerRadius + ballRadius
        && !InGap(m.atan2(toCenter.y, toCenter.x), rotation, gapSize)
      then
        Hit(true, Normalize(toCenter, m.sqrt))
      else
        Hit(false, Zero)
    }
  }
}
