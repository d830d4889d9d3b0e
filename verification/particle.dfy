/** The destruction particles of a ring (src/entities/particle.py). A particle is an object
    whose `update` changes its own fields; `ParticleState` is the value those fields hold,
    and `Step` is what one `update(dt)` does to it. The colour and the drawing radius only
    matter to `draw` and are not part of this model. */
module Particles {
  import opened Vectors

  /** The factor `update` multiplies the velocity by on every call. */
  const Deceleration: real := 0.98

  datatype ParticleState = ParticleState(pos: Vector2, vel: Vector2, lifetime: real, maxLifetime: real)

  /** One `update(dt)`: the lifetime counts down by dt, the position advances by the
      velocity held before the call, and only then is the velocity slowed. */
  function Step(s: ParticleState, dt: real): ParticleState {
    ParticleState(Add(s.pos, Scale(s.vel, dt)), Scale(s.vel, Deceleration), s.lifetime - dt, s.maxLifetime)
  }

  /** What `update` returns: whether some lifetime remains. */
  predicate Alive(s: ParticleState) {
    s.lifetime > 0.0
  }

  /** The state after n calls of `update(dt)`. */
  function Run(s: ParticleState, dt: real, n: nat): ParticleState
    decreases n
  {
    if n == 0 then s else Step(Run(s, dt, n - 1), dt)
  }

  function Power(b: real, n: nat): real
    decreases n
  {
    if n == 0 then 1.0 else Power(b, n - 1) * b
  }

  /** After n updates the lifetime has dropped by exactly n*dt, the velocity has been
      slowed n times, and the maximum lifetime is the one the particle was created with. */
  lemma {:induction false} RunState(s: ParticleState, dt: real, n: nat)
    ensures Run(s, dt, n).lifetime == s.lifetime - (n as real) * dt
    ensures Run(s, dt, n).vel == Scale(s.vel, Power(Deceleration, n))
    ensures Run(s, dt, n).maxLifetime == s.maxLifetime
    decreases n
  {
    if n > 0 {
      RunState(s, dt, n - 1);
      var p := Power(Deceleration, n - 1);
      assert Scale(Scale(s.vel, p), Deceleration) == Scale(s.vel, p * Deceleration);
    }
  }

  /** `update` keeps returning True exactly while n*dt is below the initial lifetime. */
  lemma AliveAfter(s: ParticleState, dt: real, n: nat)
    ensures Alive(Run(s, dt, n)) <==> s.lifetime > (n as real) * dt
  {
    RunState(s, dt, n);
  }

  /** The number of updates after which a particle of the given lifetime is dead:
      the least n with n*dt >= lifetime. */
  function ExpiryStep(lifetime: real, dt: real): (n: nat)
    requires dt > 0.0
    ensures lifetime <= (n as real) * dt
    ensures n > 0 ==> lifetime > ((n - 1) as real) * dt
  {
    if lifetime <= 0.0 then 0
    else
      var q := lifetime / dt;
      var c := -((-q).Floor);
      CeilingBounds(q, c);
      assert q * dt == lifetime;
      MulNonNegative(c as real - q, dt);
      assert (c as real) * dt == lifetime + (c as real - q) * dt;
      MulPositive(q - (c - 1) as real, dt);
      c
  }

  lemma CeilingBounds(q: real, c: int)
    requires q > 0.0 && c == -((-q).Floor)
    ensures c >= 1 && q <= c as real < q + 1.0
  {
  }

  /** With a fixed positive dt, `update` returns True on the calls before `ExpiryStep`
      and False on that call: every particle eventually expires. */
  lemma EventuallyExpires(s: ParticleState, dt: real)
    requires dt > 0.0
    ensures !Alive(Run(s, dt, ExpiryStep(s.lifetime, dt)))
    ensures forall i: nat :: i < ExpiryStep(s.lifetime, dt) ==> Alive(Run(s, dt, i))
  {
    var n := ExpiryStep(s.lifetime, dt);
    AliveAfter(s, dt, n);
    forall i: nat | i < n
      ensures Alive(Run(s, dt, i))
    {
      AliveAfter(s, dt, i);
      MulNonNegative(((n - 1) - i) as real, dt);
      assert ((n - 1) as real) * dt == (i as real) * dt + (((n - 1) - i) as real) * dt;
    }
  }

  class Particle {
    var pos: Vector2
    var vel: Vector2
    var lifetime: real
    const maxLifetime: real

    function State(): ParticleState
      reads this
    {
      ParticleState(pos, vel, lifetime, maxLifetime)
    }

    /** `Particle(pos, vel, lifetime, color)`: the maximum lifetime is the initial one. */
    constructor(pos: Vector2, vel: Vector2, lifetime: real)
      ensures State() == ParticleState(pos, vel, lifetime, lifetime)
    {
      this.pos := pos;
      this.vel := vel;
      this.lifetime := lifetime;
      this.maxLifetime := lifetime;
    }

    /** `update(dt)` */
    method Update(dt: real) returns (alive: bool)
      modifies this
      ensures State() == Step(old(State()), dt)
      ensures alive <==> Alive(State())
    {
      lifetime := lifetime - dt;
      pos := Add(pos, Scale(vel, dt));
      vel := Scale(vel, Deceleration);
      alive := lifetime > 0.0;
    }
  }
}
