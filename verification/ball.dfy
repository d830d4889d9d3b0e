/** The ball (src/entities/ball.py): it moves, leaves a fading trail, bounces off rings
    with a slightly randomised reflection, and grows a little with each bounce.
    `draw` is not part of this model. */
module Balls {
  import opened Vectors
  import opened Angles
  import opened Maths
  import opened Settings

  /** `trail_length` */
  const TrailLength: nat := 10
  /** `restitution`: the share of its speed the ball keeps in a bounce. */
  const Restitution: real := 0.98

  /** One trail entry: a position and its opacity. */
  datatype TrailPoint = TrailPoint(pos: Vector2, alpha: real)

  /** Python's `max(0, a)` */
  function AtLeastZero(a: real): real {
    if a > 0.0 then a else 0.0
  }

  /** One entry after a frame of fading. */
  function Fade(p: TrailPoint, dt: real): TrailPoint {
    TrailPoint(p.pos, AtLeastZero(p.alpha - dt * 2.0))
  }

  /** `trail.insert(0, (pos, 1.0))`, then `trail.pop()` once the trail is too long. */
  function Pushed(trail: seq<TrailPoint>, pos: Vector2): seq<TrailPoint> {
    var t := [TrailPoint(pos, 1.0)] + trail;
    if |t| > TrailLength then t[..|t| - 1] else t
  }

  /** Every entry faded once. */
  function Faded(trail: seq<TrailPoint>, dt: real): seq<TrailPoint> {
    seq(|trail|, i requires 0 <= i < |trail| => Fade(trail[i], dt))
  }

  /** The trail after one `update`: the newest position is at the front, older entries
      move back one place, the oldest falls off past `TrailLength`, and all fade. */
  lemma TrailUpdateShape(trail: seq<TrailPoint>, pos: Vector2, dt: real)
    requires |trail| <= TrailLength
    ensures var r := Faded(Pushed(trail, pos), dt);
      && |r| == (if |trail| < TrailLength then |trail| + 1 else TrailLength)
      && r[0] == TrailPoint(pos, AtLeastZero(1.0 - dt * 2.0))
      && forall i :: 0 < i < |r| ==> r[i] == Fade(trail[i - 1], dt)
  {
  }

  predicate AlphasInUnitRange(trail: seq<TrailPoint>) {
    forall i :: 0 <= i < |trail| ==> 0.0 <= trail[i].alpha <= 1.0
  }

  /** For dt >= 0 every opacity stays within [0, 1]. */
  lemma TrailAlphaRange(trail: seq<TrailPoint>, pos: Vector2, dt: real)
    requires dt >= 0.0 && AlphasInUnitRange(trail)
    ensures AlphasInUnitRange(Faded(Pushed(trail, pos), dt))
  {
    var t := Pushed(trail, pos);
    assert forall i :: 0 < i < |t| ==> t[i] == trail[i - 1];
  }

  /** The normal turned by the angle whose cosine and sine are `c` and `s`. */
  function Rotate(n: Vector2, c: real, s: real): Vector2 {
    Vector2(n.x * c - n.y * s, n.x * s + n.y * c)
  }

  /** `v - 2(v.n)n`: the reflection of `v` off a surface with normal `n`. */
  function Reflect(v: Vector2, n: Vector2): Vector2 {
    var d := Dot(v, n);
    Vector2(v.x - 2.0 * d * n.x, v.y - 2.0 * d * n.y)
  }

  /** The velocity after `bounce(normal)`, the random angle being `theta` (drawn from
      [-0.2, 0.2]; nothing below needs that range, so `theta` is left unconstrained):
      reflect off the turned normal, keep `Restitution` of the speed, and if that is below half of
      `ballSpeed`, go at `ballSpeed` in the same direction. */
  function BouncedVelocity(vel: Vector2, normal: Vector2, theta: real, ballSpeed: real, m: MathLib): Vector2
    requires m.Valid()
  {
    var reflected := Reflect(vel, Rotate(normal, m.cos(theta), m.sin(theta)));
    var damped := Scale(Normalize(reflected, m.sqrt), Length(reflected, m.sqrt) * Restitution);
    if Length(damped, m.sqrt) < ballSpeed * 0.5 then Scale(Normalize(damped, m.sqrt), ballSpeed)
    else damped
  }

  /** Turning a vector by an angle keeps its length. */
  lemma RotatePreservesLength(n: Vector2, c: real, s: real)
    requires c * c + s * s == 1.0
    ensures LengthSq(Rotate(n, c, s)) == LengthSq(n)
  {
    calc {
      LengthSq(Rotate(n, c, s));
      (n.x * c - n.y * s) * (n.x * c - n.y * s) + (n.x * s + n.y * c) * (n.x * s + n.y * c);
      (n.x * n.x + n.y * n.y) * (c * c + s * s);
      LengthSq(n);
    }
  }

  /** Reflecting off a unit normal keeps the speed. */
  lemma ReflectPreservesLength(v: Vector2, n: Vector2)
    requires LengthSq(n) == 1.0
    ensures LengthSq(Reflect(v, n)) == LengthSq(v)
  {
    var d := Dot(v, n);
    calc {
      LengthSq(Reflect(v, n));
      (v.x - 2.0 * d * n.x) * (v.x - 2.0 * d * n.x) + (v.y - 2.0 * d * n.y) * (v.y - 2.0 * d * n.y);
      LengthSq(v) - 4.0 * d * (v.x * n.x + v.y * n.y) + 4.0 * d * d * LengthSq(n);
      LengthSq(v) - 4.0 * d * d + 4.0 * d * d;
      LengthSq(v);
    }
  }

  /** Reflecting off a unit normal reverses the velocity's component along the normal. */
  lemma ReflectFlipsNormalComponent(v: Vector2, n: Vector2)
    requires LengthSq(n) == 1.0
    ensures Dot(Reflect(v, n), n) == -Dot(v, n)
  {
    var d := Dot(v, n);
    calc {
      Dot(Reflect(v, n), n);
      (v.x - 2.0 * d * n.x) * n.x + (v.y - 2.0 * d * n.y) * n.y;
      d - 2.0 * d * LengthSq(n);
      -d;
    }
  }

  /** Reflecting twice off the same unit normal gives the original velocity back. */
  lemma ReflectTwice(v: Vector2, n: Vector2)
    requires LengthSq(n) == 1.0
    ensures Reflect(Reflect(v, n), n) == v
  {
    var d := Dot(v, n);
    ReflectFlipsNormalComponent(v, n);
    var r := Reflect(v, n);
    assert Dot(r, n) == -d;
    assert Reflect(r, n) == Vector2(r.x + 2.0 * d * n.x, r.y + 2.0 * d * n.y);
  }

  /** Scaling a vector of length `len` by the positive factor k gives length k*len. */
  lemma ScaledLength(v: Vector2, len: real, k: real)
    requires IsLength(v, len) && k >= 0.0
    ensures IsLength(Scale(v, k), k * len)
  {
    ScaleLengthSq(v, k);
  }

  /** The speed after a bounce: zero if the reflected velocity is zero; otherwise
      `Restitution` times the reflected speed, or `ballSpeed` when that is below half of
      `ballSpeed`. So a nonzero reflected velocity always leaves the ball at no less
      than half of `ballSpeed`. */
  lemma BounceSpeed(vel: Vector2, normal: Vector2, theta: real, ballSpeed: real, m: MathLib)
    requires m.Valid()
    ensures var reflected := Reflect(vel, Rotate(normal, m.cos(theta), m.sin(theta)));
      var speed := Length(reflected, m.sqrt);
      var result := BouncedVelocity(vel, normal, theta, ballSpeed, m);
      && (speed == 0.0 ==> result == Zero)
      && (speed != 0.0 ==> IsLength(result, if speed * Restitution < ballSpeed * 0.5 then ballSpeed else speed * Restitution))
      && (speed != 0.0 ==> ballSpeed * 0.5 <= Length(result, m.sqrt))
  {
    var reflected := Reflect(vel, Rotate(normal, m.cos(theta), m.sin(theta)));
    var speed := Length(reflected, m.sqrt);
    var damped := Scale(Normalize(reflected, m.sqrt), speed * Restitution);
    var result := BouncedVelocity(vel, normal, theta, ballSpeed, m);
    if reflected == Zero {
      ScaledNormalOfZero(m.sqrt, speed * Restitution);
      assert damped == Zero;
      assert Length(damped, m.sqrt) == 0.0;
      ScaledNormalOfZero(m.sqrt, ballSpeed);
    } else {
      ScaledNormalLength(reflected, m.sqrt, speed * Restitution);
      LengthUnique(damped, Length(damped, m.sqrt), speed * Restitution);
      if speed * Restitution < ballSpeed * 0.5 {
        assert damped != Zero;
        ScaledNormalLength(damped, m.sqrt, ballSpeed);
      }
      LengthUnique(result, Length(result, m.sqrt), if speed * Restitution < ballSpeed * 0.5 then ballSpeed else speed * Restitution);
    }
  }

  /** When the surface normal has length 1, the reflected speed is the ball's speed
      before the bounce. */
  lemma BounceFromUnitNormal(vel: Vector2, normal: Vector2, theta: real, m: MathLib)
    requires m.Valid() && IsLength(normal, 1.0)
    ensures Length(Reflect(vel, Rotate(normal, m.cos(theta), m.sin(theta))), m.sqrt) == Length(vel, m.sqrt)
  {
    var rn := Rotate(normal, m.cos(theta), m.sin(theta));
    UnitDirection(m, theta);
    RotatePreservesLength(normal, m.cos(theta), m.sin(theta));
    ReflectPreservesLength(vel, rn);
    LengthUnique(Reflect(vel, rn), Length(Reflect(vel, rn), m.sqrt), Length(vel, m.sqrt));
  }

  /** The velocity after `update(dt)`: gravity adds to its vertical component. */
  function Fallen(vel: Vector2, gravity: real, dt: real): Vector2 {
    Vector2(vel.x, vel.y + gravity * dt)
  }

  class Ball {
    var pos: Vector2
    var vel: Vector2
    var radius: real
    const baseRadius: real
    var trail: seq<TrailPoint>

    ghost predicate Valid()
      reads this
    {
      |trail| <= TrailLength
    }

    /** `Ball(pos, radius)`: the initial velocity is the normalised random `direction`
        at `ballSpeed`. */
    constructor(pos: Vector2, radius: real, direction: Vector2, cfg: Config, m: MathLib)
      requires m.Valid()
      ensures this.pos == pos && this.radius == radius && baseRadius == radius
      ensures vel == Scale(Normalize(direction, m.sqrt), cfg.ballSpeed)
      ensures trail == [] && Valid()
    {
      this.pos := pos;
      this.vel := Scale(Normalize(direction, m.sqrt), cfg.ballSpeed);
      this.radius := radius;
      this.baseRadius := radius;
      this.trail := [];
    }

    /** `bounce(normal)`, the random angle being `theta`. */
    method Bounce(normal: Vector2, theta: real, cfg: Config, m: MathLib)
      requires m.Valid()
      modifies this
      ensures vel == BouncedVelocity(old(vel), normal, theta, cfg.ballSpeed, m)
      ensures pos == old(pos) && radius == old(radius) && trail == old(trail)
    {
      var cosTheta := m.cos(theta);
      var sinTheta := m.sin(theta);
      var rotatedNormal := Rotate(normal, cosTheta, sinTheta);
      vel := Reflect(vel, rotatedNormal);
      var speed := Length(vel, m.sqrt);
      vel := Scale(Normalize(vel, m.sqrt), speed * Restitution);
      if Length(vel, m.sqrt) < cfg.ballSpeed * 0.5 {
        vel := Scale(Normalize(vel, m.sqrt), cfg.ballSpeed);
      }
    }

    /** `grow()`: the radius grows by `growSize` when growing is switched on; the base
        radius never changes. */
    method Grow(cfg: Config)
      modifies this
      ensures radius == if cfg.grow then old(radius) + cfg.growSize else old(radius)
      ensures pos == old(pos) && vel == old(vel) && trail == old(trail)
    {
      if cfg.grow {
        radius := radius + cfg.growSize;
      }
    }

    /** `update(dt)`: gravity first changes the vertical velocity, the position then
        advances by the new velocity, and the trail records the new position. */
    method Update(dt: real, cfg: Config)
      requires Valid()
      modifies this
      ensures Valid()
      ensures vel == Fallen(old(vel), cfg.gravity, dt)
      ensures pos == Add(old(pos), Scale(vel, dt))
      ensures trail == Faded(Pushed(old(trail), pos), dt)
      ensures radius == old(radius)
    {
      if cfg.gravity != 0.0 {
        vel := Vector2(vel.x, vel.y + cfg.gravity * dt);
      }
      pos := Add(pos, Scale(vel, dt));
      trail := [TrailPoint(Vector2(pos.x, pos.y), 1.0)] + trail;
      if |trail| > TrailLength {
        trail := trail[..|trail| - 1];
      }
      ghost var pushed := trail;
      ghost var newVel, newPos := vel, pos;
      var i := 0;
      while i < |trail|
        invariant 0 <= i <= |trail| == |pushed|
        invariant vel == newVel && pos == newPos && radius == old(radius)
        invariant forall k :: 0 <= k < i ==> trail[k] == Fade(pushed[k], dt)
        invariant forall k :: i <= k < |trail| ==> trail[k] == pushed[k]
      {
        trail := trail[i := TrailPoint(trail[i].pos, AtLeastZero(trail[i].alpha - dt * 2.0))];
        i := i + 1;
      }
    }
  }
}
