/** The game loop's state and rules (src/game.py): the ball, the rings from the innermost
    out, the index of the innermost ring still standing, and whether the ball has
    escaped. Each frame moves the ball and turns the rings, then checks the ball against
    the active ring only. The progression of the game is proved to follow the value
    model in `Progression`: `Progress()` reads it off the objects. Drawing, the event
    loop and the frame clock are not part of this model; the frame's `dt` (which `run`
    derives from `pygame.time.get_ticks()`), the time `now` in seconds that the song
    sequencer reads from `time.time()`, and the random draws are parameters. */
module Games {
  import opened Vectors
  import opened Angles
  import opened Maths
  import opened Settings
  import opened Particles
  import opened Rings
  import opened Balls
  import opened Audio
  import opened Progression

  /** `base_radius`: the radius of the innermost ring. */
  const BaseRadius: real := 50.0
  /** The radius the ball starts with, `Ball(self.center, 8)`. */
  const BallRadius: real := 8.0

  /** `CONFIG['spacing']` as `setup_rings` sets it: the space between the innermost
      ring and `max_ring_radius`, shared equally by the rings. */
  function Spacing(cfg: Config): real
    requires cfg.rings > 0
  {
    (MaxRingRadius(cfg) - BaseRadius) / (cfg.rings as real)
  }

  /** The radius of the ring built at step i of `setup_rings`. */
  function LayoutRadius(i: int, spacing: real): real {
    BaseRadius + (i as real) * spacing
  }

  /** The build step of the ring that the sort by radius puts at position i of n: the
      radii are built in order when the spacing is non-negative, so the stable sort keeps
      that order, and in reverse order otherwise, so the sort reverses it. */
  function BuildStep(i: int, n: int, spacing: real): int {
    if spacing >= 0.0 then i else n - 1 - i
  }

  /** `base_speed * (1 + i * CONFIG['offset'])`: the rotation speed of ring i. */
  function RingSpeed(cfg: Config, i: int): real {
    cfg.rotation * (1.0 + (i as real) * cfg.offset)
  }

  /** The angle `check_gap_collision` gives the gap test, for the vector from the ball to
      the centre: `atan2(-y, -x) + pi`. */
  function GapAngle(toCenter: Vector2, m: MathLib): real {
    m.atan2(-toCenter.y, -toCenter.x) + Pi
  }

  /** `sort(key=radius)` leaves the rings ordered by radius. */
  lemma LayoutSorted(i: int, j: int, n: int, spacing: real)
    requires 0 <= i <= j < n
    ensures LayoutRadius(BuildStep(i, n, spacing), spacing) <= LayoutRadius(BuildStep(j, n, spacing), spacing)
  {
    if spacing >= 0.0 {
      MulNonNegative((j - i) as real, spacing);
    } else {
      MulNonNegative((j - i) as real, -spacing);
    }
  }

  /** Position i of the sorted rings is a position of the built ones, and each built ring
      lands at exactly one position. */
  lemma BuildStepIsPermutation(i: int, n: int, spacing: real)
    requires 0 <= i < n
    ensures 0 <= BuildStep(i, n, spacing) < n
    ensures BuildStep(BuildStep(i, n, spacing), n, spacing) == i
  {
  }

  function Reversed<T>(s: seq<T>): (r: seq<T>)
    ensures |r| == |s|
    ensures forall i :: 0 <= i < |s| ==> r[i] == s[|s| - 1 - i]
  {
    seq(|s|, i requires 0 <= i < |s| => s[|s| - 1 - i])
  }

  /** Every particle of the rings. */
  ghost function ParticlesOf(rings: seq<Ring>): set<Particle>
    reads set r | r in rings
  {
    set i, p | 0 <= i < |rings| && p in rings[i].particles :: p
  }

  /** One iteration of that loop. */
  method TurnRing(ring: Ring, speed: real, dt: real)
    requires ring.Valid()
    modifies ring, set p | p in ring.particles
    ensures ring.Valid() && ring.destroyed == old(ring.destroyed)
    ensures ring.rotation == Turned(old(ring.rotation), ring.destroyed, speed, dt)
    ensures AllStepped(old(ring.particles), dt) && ring.particles == Survivors(old(ring.particles))
  {
    ring.Update(dt, speed);
  }

  /** The loop of `update_game_state` over the rings: ring i is updated with `speeds[i]`.
      No ring is listed twice, so each turns once. */
  method TurnRings(rings: seq<Ring>, speeds: seq<real>, dt: real)
    requires |speeds| == |rings| && Distinct(rings)
    requires forall i :: 0 <= i < |rings| ==> rings[i].Valid()
    modifies (set r | r in rings), ParticlesOf(rings)
    ensures forall i :: 0 <= i < |rings| ==> rings[i].Valid() && rings[i].destroyed == old(rings[i].destroyed)
    ensures forall i :: 0 <= i < |rings| ==>
      rings[i].rotation == Turned(old(rings[i].rotation), rings[i].destroyed, speeds[i], dt)
  {
    var i := 0;
    while i < |rings|
      invariant 0 <= i <= |rings|
      invariant forall j :: 0 <= j < |rings| ==> rings[j].Valid() && rings[j].destroyed == old(rings[j].destroyed)
      invariant forall j :: i <= j < |rings| ==> unchanged(rings[j])
      invariant forall j :: 0 <= j < i ==>
                  rings[j].rotation == Turned(old(rings[j].rotation), rings[j].destroyed, speeds[j], dt)
    {
      TurnRing(rings[i], speeds[i], dt);
      i := i + 1;
    }
  }

  /** The ring built at step k of `setup_rings`. */
  ghost predicate LaidOut(ring: Ring, center: Vector2, k: int, spacing: real, cfg: Config)
    reads ring
  {
    && ring.center == center && ring.radius == LayoutRadius(k, spacing)
    && ring.rotation == (k as real) * cfg.offset
    && ring.gapSize == cfg.gapSize && ring.thickness == cfg.thickness
  }

  /** The loop of `setup_rings`, building n new rings one step at a time. */
  method BuildRings(center: Vector2, n: nat, spacing: real, cfg: Config) returns (built: seq<Ring>)
    ensures |built| == n && Distinct(built)
    ensures forall k :: 0 <= k < n ==>
      fresh(built[k]) && built[k].Valid() && !built[k].destroyed && built[k].particles == []
    ensures forall k :: 0 <= k < n ==> LaidOut(built[k], center, k, spacing, cfg)
  {
    built := [];
    var i := 0;
    while i < n
      invariant 0 <= i <= n && |built| == i && Distinct(built)
      invariant forall k :: 0 <= k < i ==>
                  fresh(built[k]) && built[k].Valid() && !built[k].destroyed && built[k].particles == []
      invariant forall k :: 0 <= k < i ==> LaidOut(built[k], center, k, spacing, cfg)
    {
      var ring := new Ring(center, LayoutRadius(i, spacing), (i as real) * cfg.offset, cfg.gapSize, cfg.thickness);
      built := built + [ring];
      i := i + 1;
    }
  }

  /** The verdict of `check_collisions` for rings with these destroyed flags, the
      innermost standing one being at `rotation`, and a ball at `ballPos`. */
  function VerdictAt(rings: seq<Ring>, destroyed: seq<bool>, rotation: real,
                     ballPos: Vector2, ballRadius: real, m: MathLib): Verdict
    requires m.Valid()
  {
    var a := FirstActive(destroyed);
    if a < |rings| then
      var ring := rings[a];
      var toCenter := Sub(ring.center, ballPos);
      Classify(a, |rings|, Length(toCenter, m.sqrt), ring.radius, ballRadius, ring.thickness,
               InGap(GapAngle(toCenter, m), rotation, ring.gapSize))
    else
      NoCollision
  }

  /** The results of the containment check and, when it fails, of the gap check decide
      the verdict as `Classify` does. */
  lemma ChecksDecideVerdict(rings: seq<Ring>, destroyed: seq<bool>, rotation: real, pos: Vector2,
                            radius: real, m: MathLib, a: int, contained: bool, hit: bool, passed: bool)
    requires m.Valid() && a == FirstActive(destroyed)
    requires contained <==> (a < |rings| && Length(Sub(rings[a].center, pos), m.sqrt) > rings[a].radius + radius)
    requires !contained ==>
      (hit <==> (a < |rings| && Abs(Length(Sub(rings[a].center, pos), m.sqrt) - rings[a].radius) < radius + rings[a].thickness))
    requires !contained ==>
      (passed <==> (hit && a < |rings| && InGap(GapAngle(Sub(rings[a].center, pos), m), rotation, rings[a].gapSize)))
    ensures VerdictAt(rings, destroyed, rotation, pos, radius, m) ==
      if contained then Contained else if !hit then NoCollision else if passed then GapPass else GapBounce
  {
  }

  class Game {
    const cfg: Config
    const center: Vector2
    const ball: Ball
    const audio: AudioManager
    var rings: seq<Ring>
    var activeRingIndex: int
    var gameWon: bool
    /** `CONFIG['spacing']` once `setup_rings` has run. */
    var spacing: real

    /** The destroyed flag of every ring, innermost first. */
    function Destroyed(): seq<bool>
      reads this, rings
    {
      seq(|rings|, i requires 0 <= i < |rings| reads this, rings => rings[i].destroyed)
    }

    /** The game's progression as a value. */
    function Progress(): State
      reads this, rings
    {
      State(Destroyed(), activeRingIndex, gameWon)
    }

    /** The rotation of every ring, innermost first. */
    function Rotations(): seq<real>
      reads this, rings
    {
      seq(|rings|, i requires 0 <= i < |rings| reads this, rings => rings[i].rotation)
    }

    /** The rotation every ring will have after `update(dt)`, ring i turning at
        `RingSpeed(cfg, i)` unless it is destroyed. */
    function TurnedRotations(dt: real): (r: seq<real>)
      reads this, rings
      ensures |r| == |rings|
      ensures forall i :: 0 <= i < |rings| && rings[i].destroyed ==> r[i] == rings[i].rotation
    {
      seq(|rings|, i requires 0 <= i < |rings| reads this, rings =>
        Turned(rings[i].rotation, rings[i].destroyed, RingSpeed(cfg, i), dt))
    }

    /** The particle list of every ring, innermost first. */
    function ParticleLists(): seq<seq<Particle>>
      reads this, rings
    {
      seq(|rings|, i requires 0 <= i < |rings| reads this, rings => rings[i].particles)
    }

    /** Every particle of every ring. */
    ghost function ParticleObjects(): set<Particle>
      reads this, rings
    {
      ParticlesOf(rings)
    }

    ghost predicate RingsValid()
      reads this, rings
    {
      && Distinct(rings)
      && (forall i :: 0 <= i < |rings| ==> rings[i].Valid())
    }

    ghost predicate Valid()
      reads this, ball, audio, rings
    {
      && cfg.rings > 0 && spacing == Spacing(cfg)
      && |rings| == cfg.rings
      && RingsValid()
      && Consistent(Progress())
      && ball.Valid()
      && audio.Valid()
    }

    /** The rotation the innermost ring still standing will have after `dt` more
        seconds at its speed (zero when no ring stands). */
    function ActiveRotation(dt: real): real
      reads this, rings
    {
      var a := FirstActive(Destroyed());
      if a < |rings| then rings[a].rotation + RingSpeed(cfg, a) * dt else 0.0
    }

    /** Where `ball.update(dt)` puts the ball. */
    function MovedBallPos(dt: real): Vector2
      reads this, ball
    {
      Add(ball.pos, Scale(Fallen(ball.vel, cfg.gravity, dt), dt))
    }

    /** The ball bounced off a surface with this normal and then grew, and the song
        sequencer was asked to play at `now`. */
    twostate predicate BouncedOff(normal: Vector2, theta: real, now: real, m: MathLib)
      reads this, ball, audio
      requires m.Valid()
    {
      && ball.vel == BouncedVelocity(old(ball.vel), normal, theta, cfg.ballSpeed, m)
      && ball.radius == (if cfg.grow then old(ball.radius) + cfg.growSize else old(ball.radius))
      && ball.pos == old(ball.pos) && ball.trail == old(ball.trail)
      && audio.State() == Play(old(audio.State()), |audio.snippets|, audio.hasSongChannel, now).next
    }

    /** Neither the ball nor the song sequencer changed. */
    twostate predicate Untouched()
      reads this, ball, audio
    {
      && ball.vel == old(ball.vel) && ball.radius == old(ball.radius)
      && ball.pos == old(ball.pos) && ball.trail == old(ball.trail)
      && audio.State() == old(audio.State())
    }

    /** `Game()`: the window's centre, the ball at the centre with radius 8 moving in the
        random `direction`, the song loaded as `AudioManager` does, and the rings set up;
        nothing is destroyed and the game is not won. */
    constructor(cfg: Config, direction: Vector2, loaded: bool, arrayReady: bool,
                totalSamples: nat, numChannels: nat, m: MathLib)
      requires cfg.rings > 0 && m.Valid()
      ensures Valid() && Settled(Progress())
      ensures Progress() == State(seq(cfg.rings, i => false), 0, false)
      ensures center == Vector2(cfg.width / 2.0, cfg.height / 2.0)
      ensures ball.pos == center && ball.radius == BallRadius
      ensures ball.vel == Scale(Normalize(direction, m.sqrt), cfg.ballSpeed)
      ensures audio.State() == Sequencer(0, 0.0)
      ensures ball.trail == []
      ensures audio.hasSongChannel == loaded
      ensures !loaded ==> audio.snippets == []
      ensures loaded && arrayReady && numChannels > 0 ==> audio.snippets == Slices(totalSamples, SampleRate * numChannels)
      ensures loaded && !(arrayReady && numChannels > 0) ==> audio.snippets == [WholeSong]
      ensures spacing == Spacing(cfg)
      ensures forall i :: 0 <= i < |rings| ==> rings[i].radius == LayoutRadius(BuildStep(i, |rings|, spacing), spacing)
      ensures forall i :: 0 <= i < |rings| ==>
        fresh(rings[i]) && rings[i].particles == [] && LaidOut(rings[i], center, BuildStep(i, |rings|, spacing), spacing, cfg)
      ensures forall i, j :: 0 <= i <= j < |rings| ==> rings[i].radius <= rings[j].radius
    {
      this.cfg := cfg;
      var c := Vector2(cfg.width / 2.0, cfg.height / 2.0);
      center := c;
      ball := new Ball(c, BallRadius, direction, cfg, m);
      audio := new AudioManager(loaded, arrayReady, totalSamples, numChannels);
      rings := [];
      activeRingIndex := 0;
      gameWon := false;
      spacing := 0.0;
      new;
      SetupRings();
      assert Destroyed() == seq(cfg.rings, i => false);
    }

    /** `setup_rings()`: ring i of the build has radius `50 + i * spacing`, rotation
        `i * offset`, the configured gap and thickness; the rings are then ordered by
        radius. */
    method SetupRings()
      requires rings == [] && cfg.rings > 0
      modifies this
      ensures spacing == Spacing(cfg)
      ensures |rings| == cfg.rings && RingsValid()
      ensures forall i :: 0 <= i < |rings| ==> fresh(rings[i]) && !rings[i].destroyed && rings[i].particles == []
      ensures forall i :: 0 <= i < |rings| ==> LaidOut(rings[i], center, BuildStep(i, |rings|, spacing), spacing, cfg)
      ensures forall i, j :: 0 <= i <= j < |rings| ==> rings[i].radius <= rings[j].radius
      ensures activeRingIndex == old(activeRingIndex) && gameWon == old(gameWon)
    {
      spacing := Spacing(cfg);
      var built := BuildRings(center, cfg.rings, spacing, cfg);
      if spacing < 0.0 {
        rings := Reversed(built);
      } else {
        rings := built;
      }
      forall i, j | 0 <= i <= j < |rings|
        ensures rings[i].radius <= rings[j].radius
      {
        LayoutSorted(i, j, |rings|, spacing);
      }
    }

    /** `get_innermost_active_ring()` */
    method GetInnermostActiveRing() returns (index: int)
      ensures index == FirstActive(Destroyed())
    {
      index := 0;
      while index < |rings| && rings[index].destroyed
        invariant 0 <= index <= |rings|
        invariant forall k :: 0 <= k < index ==> rings[k].destroyed
      {
        index := index + 1;
      }
      FirstActiveUnique(Destroyed(), index);
    }

    /** `all(ring.destroyed for ring in self.rings)` */
    method AllRingsDestroyed() returns (all: bool)
      ensures all <==> AllDestroyed(Destroyed())
    {
      all := true;
      var i := 0;
      while i < |rings|
        invariant 0 <= i <= |rings|
        invariant all <==> forall k :: 0 <= k < i ==> rings[k].destroyed
      {
        if !rings[i].destroyed {
          all := false;
        }
        i := i + 1;
      }
      assert forall k :: 0 <= k < |rings| ==> Destroyed()[k] == rings[k].destroyed;
    }

    /** What both collision checks do on a bounce: `ball.bounce(normal)`, then
        `audio.play_song_snippet()`, then `ball.grow()`. */
    method BounceBack(normal: Vector2, theta: real, now: real, m: MathLib)
      requires m.Valid() && ball.Valid() && audio.Valid()
      modifies ball, audio
      ensures ball.Valid() && audio.Valid()
      ensures BouncedOff(normal, theta, now, m)
    {
      ball.Bounce(normal, theta, cfg, m);
      var _ := audio.PlaySongSnippet(now);
      ball.Grow(cfg);
    }

    /** `check_ball_containment()`: a ball beyond the active ring by more than its radius
        bounces back towards the centre, plays a snippet and grows. */
    method CheckBallContainment(now: real, theta: real, m: MathLib) returns (contained: bool)
      requires Valid() && m.Valid()
      modifies ball, audio
      ensures Valid()
      ensures contained <==> (activeRingIndex < |rings| &&
        Length(Sub(rings[activeRingIndex].center, old(ball.pos)), m.sqrt) > rings[activeRingIndex].radius + old(ball.radius))
      ensures contained ==> BouncedOff(Normalize(Sub(rings[activeRingIndex].center, old(ball.pos)), m.sqrt), theta, now, m)
      ensures !contained ==> Untouched()
    {
      contained := false;
      if activeRingIndex < |rings| {
        var ring := rings[activeRingIndex];
        var toCenter := Sub(ring.center, ball.pos);
        var distance := Length(toCenter, m.sqrt);
        if distance > ring.radius + ball.radius {
          BounceBack(Normalize(toCenter, m.sqrt), theta, now, m);
          contained := true;
        }
      }
    }

    /** `check_gap_collision()`: a ball within `radius + thickness` of the active ring's
        circle passes if it is in the gap, which destroys the ring, bursts it into
        particles and moves the active index on; otherwise it bounces as in
        `check_ball_containment`. `hit` is the source's result, `passed` whether the ball
        went through the gap. */
    method CheckGapCollision(now: real, theta: real, draws: seq<ParticleDraw>, m: MathLib)
      returns (hit: bool, passed: bool)
      requires Valid() && m.Valid()
      requires |draws| == DestructionParticleCount && forall d :: d in draws ==> DrawInRange(d)
      modifies this, ball, audio, rings
      ensures Valid()
      ensures rings == old(rings) && gameWon == old(gameWon) && Rotations() == old(Rotations())
      ensures var a := old(activeRingIndex);
        hit <==> (a < |rings| &&
          Abs(Length(Sub(rings[a].center, old(ball.pos)), m.sqrt) - rings[a].radius) < old(ball.radius) + rings[a].thickness)
      ensures var a := old(activeRingIndex);
        passed <==> hit && InGap(GapAngle(Sub(rings[a].center, old(ball.pos)), m), rings[a].rotation, rings[a].gapSize)
      ensures var a := old(activeRingIndex);
        passed ==> Progress() == State(old(Destroyed())[a := true], a + 1, gameWon) && Untouched()
      ensures var a := old(activeRingIndex);
        passed ==> (ParticleLists() == old(ParticleLists())[a := rings[a].particles] &&
          |rings[a].particles| == |old(rings[a].particles)| + DestructionParticleCount &&
          rings[a].particles[..|old(rings[a].particles)|] == old(rings[a].particles))
      ensures var a := old(activeRingIndex);
        passed ==> forall k :: |old(rings[a].particles)| <= k < |rings[a].particles| ==>
          fresh(rings[a].particles[k]) &&
          rings[a].particles[k].State() == DestructionState(rings[a].center, rings[a].radius, draws[k - |old(rings[a].particles)|], m)
      ensures var a := old(activeRingIndex);
        hit && !passed ==> (Progress() == old(Progress()) &&
          BouncedOff(Normalize(Sub(rings[a].center, old(ball.pos)), m.sqrt), theta, now, m))
      ensures !hit ==> Progress() == old(Progress()) && Untouched()
      ensures !passed ==> ParticleLists() == old(ParticleLists())
    {
      hit, passed := false, false;
      var a := activeRingIndex;
      if a < |rings| {
        var ring := rings[a];
        var toCenter := Sub(ring.center, ball.pos);
        var distance := Length(toCenter, m.sqrt);
        var angle := GapAngle(toCenter, m);
        var detectionWidth := ball.radius + ring.thickness;
        if Abs(distance - ring.radius) < detectionWidth {
          if InGap(angle, ring.rotation, ring.gapSize) {
            DestroyActiveRing(draws, m);
            hit, passed := true, true;
          } else {
            BounceBack(Normalize(toCenter, m.sqrt), theta, now, m);
            hit := true;
          }
        }
      }
    }

    /** The gap-pass branch of `check_gap_collision()`: the active ring is destroyed and
        bursts into 100 new particles, particle k built from `draws[k]`, and the active
        index moves past it. Nothing else changes. */
    method DestroyActiveRing(draws: seq<ParticleDraw>, m: MathLib)
      requires Valid() && m.Valid() && activeRingIndex < |rings|
      requires |draws| == DestructionParticleCount && forall d :: d in draws ==> DrawInRange(d)
      modifies this, rings[activeRingIndex]
      ensures Valid()
      ensures rings == old(rings) && gameWon == old(gameWon) && Rotations() == old(Rotations())
      ensures var a := old(activeRingIndex);
        Progress() == State(old(Destroyed())[a := true], a + 1, gameWon) && rings[a].rotation == old(rings[a].rotation)
      ensures var a := old(activeRingIndex);
        && ParticleLists() == old(ParticleLists())[a := rings[a].particles]
        && |rings[a].particles| == |old(rings[a].particles)| + DestructionParticleCount
        && rings[a].particles[..|old(rings[a].particles)|] == old(rings[a].particles)
      ensures var a := old(activeRingIndex);
        forall k :: |old(rings[a].particles)| <= k < |rings[a].particles| ==>
          fresh(rings[a].particles[k]) &&
          rings[a].particles[k].State() == DestructionState(rings[a].center, rings[a].radius, draws[k - |old(rings[a].particles)|], m)
    {
      var a := activeRingIndex;
      var ring := rings[a];
      ring.destroyed := true;
      ring.CreateDestructionParticles(draws, m);
      activeRingIndex := a + 1;
      assert Destroyed() == old(Destroyed())[a := true];
      assert ParticleLists() == old(ParticleLists())[a := ring.particles];
    }

    /** `check_collisions()`: the active index is re-derived, then the containment check
        runs, and the gap check only if the ball was not contained. The verdict is what
        `Classify` decides from the state on entry, and the progression moves as
        `Collide` says. No ring turns, and only a gap pass adds particles, to the ring it
        destroys. */
    method CheckCollisions(now: real, theta: real, draws: seq<ParticleDraw>, m: MathLib)
      returns (verdict: Verdict)
      requires Valid() && m.Valid()
      requires |draws| == DestructionParticleCount && forall d :: d in draws ==> DrawInRange(d)
      modifies this, ball, audio, rings
      ensures Valid()
      ensures rings == old(rings) && Rotations() == old(Rotations())
      ensures verdict != GapPass ==> ParticleLists() == old(ParticleLists())
      ensures var a := old(activeRingIndex);
        verdict == GapPass ==> (a < |rings| && ParticleLists() == old(ParticleLists())[a := rings[a].particles] &&
          |rings[a].particles| == |old(rings[a].particles)| + DestructionParticleCount &&
          rings[a].particles[..|old(rings[a].particles)|] == old(rings[a].particles))
      ensures verdict == VerdictAt(old(rings), old(Destroyed()), old(ActiveRotation(0.0)), old(ball.pos), old(ball.radius), m)
      ensures Progress() == Collide(old(Progress()), verdict)
      ensures var a := old(activeRingIndex);
        verdict == Contained || verdict == GapBounce ==>
          BouncedOff(Normalize(Sub(rings[a].center, old(ball.pos)), m.sqrt), theta, now, m)
      ensures verdict == GapPass || verdict == NoCollision ==> Untouched()
    {
      RefreshActiveRing();
      verdict := ResolveCollision(now, theta, draws, m);
    }

    /** `self.active_ring_index = self.get_innermost_active_ring()`: in a valid game the
        index is already the innermost ring standing, so nothing changes. */
    method RefreshActiveRing()
      requires Valid()
      modifies this
      ensures Valid() && rings == old(rings) && activeRingIndex == old(activeRingIndex)
      ensures Progress() == old(Progress()) && ActiveRotation(0.0) == old(ActiveRotation(0.0))
      ensures Destroyed() == old(Destroyed()) && Rotations() == old(Rotations()) && ParticleLists() == old(ParticleLists())
    {
      FirstActiveOfConsistent(Progress());
      activeRingIndex := GetInnermostActiveRing();
      assert RingsValid() && Destroyed() == old(Destroyed());
      assert Progress() == old(Progress());
    }

    /** The two checks of `check_collisions()` once the active index is known. */
    method ResolveCollision(now: real, theta: real, draws: seq<ParticleDraw>, m: MathLib)
      returns (verdict: Verdict)
      requires Valid() && m.Valid()
      requires |draws| == DestructionParticleCount && forall d :: d in draws ==> DrawInRange(d)
      modifies this, ball, audio, rings
      ensures Valid()
      ensures rings == old(rings) && Rotations() == old(Rotations())
      ensures verdict != GapPass ==> ParticleLists() == old(ParticleLists())
      ensures var a := old(activeRingIndex);
        verdict == GapPass ==> (a < |rings| && ParticleLists() == old(ParticleLists())[a := rings[a].particles] &&
          |rings[a].particles| == |old(rings[a].particles)| + DestructionParticleCount &&
          rings[a].particles[..|old(rings[a].particles)|] == old(rings[a].particles))
      ensures verdict == VerdictAt(old(rings), old(Destroyed()), old(ActiveRotation(0.0)), old(ball.pos), old(ball.radius), m)
      ensures Progress() == Collide(old(Progress()), verdict)
      ensures var a := old(activeRingIndex);
        verdict == Contained || verdict == GapBounce ==>
          BouncedOff(Normalize(Sub(rings[a].center, old(ball.pos)), m.sqrt), theta, now, m)
      ensures verdict == GapPass || verdict == NoCollision ==> Untouched()
    {
      ghost var start := Progress();
      FirstActiveOfConsistent(start);
      CollideOfConsistent(start, GapPass);
      ghost var a := activeRingIndex;
      ghost var pos, radius := ball.pos, ball.radius;
      ghost var rotation := if a < |rings| then rings[a].rotation else 0.0;
      assert ActiveRotation(0.0) == rotation;
      var contained := CheckBallContainment(now, theta, m);
      var hit, passed := false, false;
      if !contained {
        hit, passed := CheckGapCollision(now, theta, draws, m);
        assert a < |rings| ==> rings[a].rotation == Rotations()[a];
      }
      verdict := if contained then Contained else if !hit then NoCollision else if passed then GapPass else GapBounce;
      ChecksDecideVerdict(rings, start.destroyed, rotation, pos, radius, m, a, contained, hit, passed);
    }

    /** `update(dt)` of every ring, ring i turning at `RingSpeed(cfg, i)`. */
    method UpdateRings(dt: real)
      requires Valid()
      modifies rings, ParticleObjects()
      ensures Valid()
      ensures Destroyed() == old(Destroyed())
      ensures forall i :: 0 <= i < |rings| ==>
        rings[i].rotation == Turned(old(rings[i].rotation), old(rings[i].destroyed), RingSpeed(cfg, i), dt)
      ensures ActiveRotation(0.0) == old(ActiveRotation(dt))
    {
      var speeds := seq(|rings|, i => RingSpeed(cfg, i));
      TurnRings(rings, speeds, dt);
      assert Destroyed() == old(Destroyed());
    }

    /** The first half of a frame of `update_game_state(dt)`: `ball.update(dt)`, then every
        ring's `update`. No ring is destroyed, the ball has fallen and moved as
        `Ball.update` says, and every ring has turned as `TurnedRotations` says. */
    method MoveBallAndRings(dt: real)
      requires Valid()
      modifies ball, rings, ParticleObjects()
      ensures Valid()
      ensures Destroyed() == old(Destroyed())
      ensures ball.pos == old(MovedBallPos(dt)) && ball.radius == old(ball.radius)
      ensures ball.vel == Fallen(old(ball.vel), cfg.gravity, dt)
      ensures ball.trail == Faded(Pushed(old(ball.trail), ball.pos), dt)
      ensures Rotations() == old(TurnedRotations(dt))
      ensures ActiveRotation(0.0) == old(ActiveRotation(dt))
    {
      ball.Update(dt, cfg);
      UpdateRings(dt);
    }

    /** The part of a frame that runs while the game is not won: the ball moves, the
        rings turn, and the collisions are checked with the moved ball and turned rings. */
    method MoveAndCollide(dt: real, now: real, theta: real, draws: seq<ParticleDraw>, m: MathLib)
      returns (verdict: Verdict)
      requires Valid() && m.Valid()
      requires |draws| == DestructionParticleCount && forall d :: d in draws ==> DrawInRange(d)
      modifies this, ball, audio, rings, ParticleObjects()
      ensures Valid()
      ensures Progress() == Collide(old(Progress()), verdict)
      ensures verdict == VerdictAt(old(rings), old(Destroyed()), old(ActiveRotation(dt)), old(MovedBallPos(dt)), old(ball.radius), m)
      ensures rings == old(rings) && Rotations() == old(TurnedRotations(dt))
    {
      MoveBallAndRings(dt);
      verdict := CheckCollisions(now, theta, draws, m);
    }

    /** A frame of `update_game_state(dt)` while the game is not won: the ball moves, the
        rings turn, the collisions are checked with the moved ball and turned rings, and
        the game is won when every ring is destroyed. */
    method PlayFrame(dt: real, now: real, theta: real, draws: seq<ParticleDraw>, m: MathLib)
      returns (verdict: Verdict)
      requires Valid() && m.Valid() && !gameWon
      requires |draws| == DestructionParticleCount && forall d :: d in draws ==> DrawInRange(d)
      modifies this, ball, audio, rings, ParticleObjects()
      ensures Valid() && Settled(Progress())
      ensures Progress() == Tick(old(Progress()), verdict)
      ensures verdict == VerdictAt(old(rings), old(Destroyed()), old(ActiveRotation(dt)), old(MovedBallPos(dt)), old(ball.radius), m)
      ensures rings == old(rings) && Rotations() == old(TurnedRotations(dt))
    {
      ghost var start := Progress();
      verdict := MoveAndCollide(dt, now, theta, draws, m);
      DeclareWin();
      TickSettles(start, verdict);
    }

    /** `if self.all_rings_destroyed(): self.game_won = True`. */
    method DeclareWin()
      requires Valid()
      modifies this
      ensures Valid()
      ensures rings == old(rings) && Rotations() == old(Rotations())
      ensures Progress() == if AllDestroyed(old(Destroyed())) then old(Progress()).(won := true) else old(Progress())
    {
      FirstActiveOfConsistent(Progress());
      var all := AllRingsDestroyed();
      if all {
        gameWon := true;
        assert RingsValid() && Destroyed() == old(Destroyed()) && Rotations() == old(Rotations());
      }
    }

    /** `update_game_state(dt)`: nothing once the game is won, otherwise a `PlayFrame`.
        The progression moves as `Tick` says, and the game is settled at the end of the
        frame. */
    method UpdateGameState(dt: real, now: real, theta: real, draws: seq<ParticleDraw>, m: MathLib)
      returns (verdict: Verdict)
      requires Valid() && m.Valid()
      requires |draws| == DestructionParticleCount && forall d :: d in draws ==> DrawInRange(d)
      modifies this, ball, audio, rings, ParticleObjects()
      ensures Valid() && Settled(Progress())
      ensures Progress() == Tick(old(Progress()), verdict)
      ensures rings == old(rings)
      ensures old(gameWon) ==> verdict == NoCollision && Untouched()
      ensures old(gameWon) ==> unchanged(this) && (forall i :: 0 <= i < |rings| ==> unchanged(rings[i])) && unchanged(ParticleObjects())
      ensures !old(gameWon) ==>
        verdict == VerdictAt(old(rings), old(Destroyed()), old(ActiveRotation(dt)), old(MovedBallPos(dt)), old(ball.radius), m)
      ensures !old(gameWon) ==> Rotations() == old(TurnedRotations(dt))
    {
      if gameWon {
        verdict := NoCollision;
        TickSettles(Progress(), verdict);
      } else {
        verdict := PlayFrame(dt, now, theta, draws, m);
      }
    }
  }
}
