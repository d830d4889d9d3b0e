# Circle Escape, modelled in Dafny

A model of the game logic of the pygame toy "Circle Escape". A ball bounces inside
concentric rotating rings. Each ring has a gap, and passing through the gap of the
innermost standing ring destroys that ring. The ball escapes, and the game is won, once
every ring is destroyed.

The model follows the source's own structure, one module per source file:

- `Vectors`: the 2D vector value.
- `Particles`, `Rings` and `Balls`: the entities, as classes whose methods update their
  fields.
- `Audio`: the song-snippet sequencer.
- `Games`: the game object.
- `Progression`: the game's progression (destroyed flags, active index, won flag) as a
  pure state machine. `Games.Game.UpdateGameState` is proved to move the objects as that
  state machine's `Tick` says.
- `ScriptAudio`: the earlier player of `script.py`, which keeps a cursor in the song
  instead of cutting it up front.

`script.py` also repeats `Vector2`, `Particle`, `Ball`, `Ring` and the `Game` progression
methods. Those repeats are modelled once, by the `src/` members:

- `Ball.update` of `script.py` has no gravity step, and is `Balls.Ball.Update` with
  `gravity == 0`.
- Its containment, gap and progression methods (script.py:310-381) are
  `Games.Game.GetInnermostActiveRing`, `CheckBallContainment`, `CheckGapCollision`,
  `CheckCollisions` and `UpdateGameState`, with one difference: a bounce there asks
  `script.py`'s own cursor player to play (script.py:326, 352). So for `script.py` the
  sequencer clause of `Games.Game.BouncedOff` is `ScriptAudio.CursorPlay`, not
  `Audio.Play`.

Numbers are `real`. Python's `math` functions are an oracle, `Maths.MathLib`:

- `sqrt` is known only to return the non-negative square root.
- `cos` and `sin` are known only to lie on the unit circle.
- `atan2` is unconstrained.

Every `random.uniform` draw, the time `now` in seconds that the song sequencer reads
from `time.time()`, and the frame's `dt` (which `run` derives from
`pygame.time.get_ticks()`) are parameters. The configuration dictionary is an immutable `Config` value.
The ring spacing that `setup_rings` writes into it is a field of the game. The game's
invariant `Games.Game.Valid` keeps it at `(max_ring_radius - 50) / rings` from then on.

## Model

| member | source | states |
|---|---|---|
| Vectors.Length | src/utils/vector.py:18-19 | `length()` is the non-negative root of x*x + y*y, and is zero exactly for the zero vector |
| Vectors.Normalize | src/utils/vector.py:21-25 | `normalize()` returns the zero vector for the zero vector (no division by zero) and a vector of length 1 otherwise |
| Vectors.NormalizeIsPositiveMultiple | src/utils/vector.py:21-25 | `normalize()` of a nonzero vector is a positive multiple of it |
| Vectors.SubUndoesAdd | src/utils/vector.py:9-13 | `(a + b) - b == a` |
| Vectors.ScaledNormalLength | src/utils/vector.py:15-25 | `v.normalize() * k` of a nonzero v, for k >= 0, has length k |
| Angles.Wrap | src/entities/ring.py:36 | Python's `a % (2*pi)` lies in [0, 2π) and differs from a by whole turns |
| Angles.WrapUnique | src/entities/ring.py:36 | any value in [0, 2π) that differs from a by whole turns is `a % (2*pi)` |
| Angles.WrapShift | src/entities/ring.py:36 | adding whole turns does not change `a % (2*pi)` |
| Maths.UnitDirection | src/entities/ring.py:29 | `Vector2(cos(angle), sin(angle))` has length 1 |
| Settings.DefaultsLayout | src/config.py:2-19 | the shipped settings give `max_ring_radius` 324 and a ring spacing of 10.96 |
| Particles.Particle.constructor | src/entities/particle.py:7-13 | the maximum lifetime is the initial lifetime |
| Particles.Particle.Update | src/entities/particle.py:15-19 | the lifetime drops by dt; the position advances by the velocity from before the call; the velocity is then scaled by 0.98; the result is whether lifetime > 0 |
| Particles.RunState | src/entities/particle.py:11-18 | after n updates the lifetime has dropped by n*dt, the velocity is scaled by 0.98^n, and the maximum lifetime is unchanged |
| Particles.AliveAfter | src/entities/particle.py:16-19 | the n-th update returns True exactly when the initial lifetime exceeds n*dt |
| Particles.ExpiryStep | src/entities/particle.py:16-19 | the least number of updates after which a lifetime is used up |
| Particles.EventuallyExpires | src/entities/particle.py:16-19 | with a fixed dt > 0, updates return True before `ExpiryStep` and False at it |
| Rings.InGapIffNearGapCentre | src/entities/ring.py:35-42 | `is_ball_in_gap` holds exactly when the angle is within `gap_size/2 + 0.1` of the rotation, up to whole turns |
| Rings.InGapShiftAngle | src/entities/ring.py:36 | turning the ball's angle by whole turns does not change `is_ball_in_gap` |
| Rings.InGapShiftRotation | src/entities/ring.py:36 | turning the ring by whole turns does not change `is_ball_in_gap` |
| Rings.GapIsProperWindow | src/entities/ring.py:35-42 | the rotation itself is in the gap and the opposite side is not, for a window narrower than half a turn |
| Rings.DestructionStateShape | src/entities/ring.py:25-33 | a destruction particle starts on the ring's circle, moves straight outward at its drawn speed in [100, 300], and lives 0.5 to 1.5 seconds |
| Rings.SurvivorsAreTheLiving | src/entities/ring.py:48 | every kept particle is one of the list's and alive, every live particle of the list is kept, and no particle is kept twice (the order is that of `Survivors`' definition) |
| Rings.UpdateParticles | src/entities/ring.py:48 | every particle is updated once by dt, and the kept list is the survivors in their original order |
| Rings.Ring.constructor | src/entities/ring.py:10-23 | a new ring has the given centre, radius, rotation and gap, the configured thickness, is not destroyed and has no particles |
| Rings.Ring.CreateDestructionParticles | src/entities/ring.py:25-33 | exactly 100 new particles are appended after the existing ones, particle k built from draw k; rotation and destroyed flag are unchanged |
| Rings.Ring.Update | src/entities/ring.py:44-48 | the rotation advances by `rotation_speed * dt` only if the ring is not destroyed; the flag is unchanged; the particles are the survivors of one update each |
| Rings.Ring.CheckCollision | src/entities/ring.py:68-79 | a hit exactly when the distance is within `spacing/2 + ball_radius` of the radius and `atan2(y, x)` is not in the gap; the normal is then the normalised `center - ball_pos`, otherwise zero |
| Balls.TrailUpdateShape | src/entities/ball.py:51-56 | the new position goes to the front, older entries shift back, the trail is capped at 10 entries, and every entry fades by `2*dt` floored at 0 |
| Balls.TrailAlphaRange | src/entities/ball.py:55-56 | for dt >= 0 every trail opacity stays within [0, 1] |
| Balls.RotatePreservesLength | src/entities/ball.py:24-27 | turning the normal by the random angle keeps its length |
| Balls.ReflectPreservesLength | src/entities/ball.py:29-33 | reflecting `v - 2(v.n)n` off a unit normal keeps the squared speed |
| Balls.ReflectFlipsNormalComponent | src/entities/ball.py:29-33 | the reflection reverses the velocity's component along the normal |
| Balls.ReflectTwice | src/entities/ball.py:29-33 | reflecting twice off the same unit normal gives the velocity back |
| Balls.BounceSpeed | src/entities/ball.py:35-39 | after a bounce the speed is 0.98 times the reflected speed, or `ball_speed` if that is below half of it; so at least half of `ball_speed` whenever the reflected velocity is nonzero |
| Balls.BounceFromUnitNormal | src/entities/ball.py:19-33 | off a unit normal, the reflected speed is the speed before the bounce |
| Balls.Ball.constructor | src/entities/ball.py:9-17 | the ball starts at the given position and radius, with the normalised random direction times `ball_speed` and an empty trail |
| Balls.Ball.Bounce | src/entities/ball.py:19-39 | the new velocity is `BouncedVelocity` of the old one; position, radius and trail are unchanged |
| Balls.Ball.Grow | src/entities/ball.py:41-43 | the radius grows by `grow_size` exactly when growing is on; nothing else changes |
| Balls.Ball.Update | src/entities/ball.py:45-56 | gravity first adds `gravity*dt` to the vertical velocity, the position then advances by the new velocity, and the trail is pushed and faded |
| Audio.SlicesTileSong | src/managers/audio_manager.py:36-48 | the snippets start at row 0 of the song array, are `44100 * channels` rows long each, are contiguous, and end within the song, less than one snippet before its end |
| Audio.SliceSong | src/managers/audio_manager.py:40-48 | the cutting loop builds snippet i as samples `[i*sps, i*sps + sps)`, `total_samples // sps` of them |
| Audio.PlayKeepsIndexInRange | src/managers/audio_manager.py:62-73 | the snippet index stays within the snippets |
| Audio.RoundRobin | src/managers/audio_manager.py:62-73 | over any sequence of calls, the k-th snippet played is `(start + k) mod count`, and the index ends at `(start + plays) mod count` |
| Audio.AudioManager.constructor | src/managers/audio_manager.py:6-60 | snippets of `44100 * channels` rows when the song loads and can be cut, the whole song if it cannot be cut, no snippets and no channel if nothing loads; index 0 and clock 0 |
| Audio.AudioManager.PlaySongSnippet | src/managers/audio_manager.py:62-73 | nothing happens without snippets, without a channel or within the 0.1 s cooldown; otherwise the current snippet plays, the index moves on modulo the count, and the clock becomes `now` |
| Audio.AudioManager.ResetSongSequence | src/managers/audio_manager.py:80-81 | the index returns to 0 and the clock is kept |
| ScriptAudio.PlayedSliceWithinSong | script.py:108-123 | what plays is a nonempty piece of the song of at most `samples_per_second` rows, starting at the cursor times `samples_per_second`, and the clock becomes `now` |
| ScriptAudio.SuccessivePlaysAreContiguous | script.py:113-122 | two successive plays cover adjacent slices: the second starts one slice after the first, exactly where the first ended |
| ScriptAudio.WrapsToStart | script.py:113-126 | past the song's end a call rewinds without playing and keeps the clock; the next plays the first slice |
| ScriptAudio.AudioManager.constructor | script.py:93-95 | the cursor and the clock start at 0 |
| ScriptAudio.AudioManager.PlaySongSnippet | script.py:108-126 | the cursor and the slice played are as `CursorPlay` says: play and advance inside the song, rewind past its end, nothing without a song or within the cooldown |
| Progression.FirstActive | src/game.py:47-51 | the index of the first ring not destroyed, or the number of rings; every ring before it is destroyed |
| Progression.FirstActiveUnique | src/game.py:47-51 | that index is the only one with all flags before it set and its own clear |
| Progression.InitialConsistent | src/game.py:19-27 | a new game (no ring destroyed, index 0, not won) is settled |
| Progression.FirstActiveOfConsistent | src/game.py:90-91 | in a consistent game, re-deriving the active index gives the index already held |
| Progression.ContainmentTakesPrecedence | src/game.py:90-96 | a ball outside the active ring is contained, whatever the gap says |
| Progression.GapPassConditions | src/game.py:67-81 | a gap pass happens exactly when an active ring exists, the ball is not outside it, is within the detection band and is in the gap; without an active ring nothing happens |
| Progression.TickMonotone | src/game.py:98-109 | a frame never clears a destroyed flag and changes at most one, that of the active ring, on a gap pass in a game not won |
| Progression.WonIsFinal | src/game.py:98-99 | once won, a frame changes nothing |
| Progression.WonIffAllDestroyed | src/game.py:108-109 | after a frame, the game is won exactly when every ring is destroyed |
| Progression.OnlyGapPassDestroys | src/game.py:53-96 | containment, a bounce off the ring and no collision leave every ring as it was |
| Progression.GapPassAdvances | src/game.py:76-80 | a gap pass destroys exactly the active ring and advances the index by one |
| Progression.CollideOfConsistent | src/game.py:90-96 | in a consistent game the collision step changes the state only on a gap pass with a ring left |
| Progression.CollidePreservesConsistent | src/game.py:90-96 | the collision step keeps the destroyed rings exactly those before the active index |
| Progression.TickSettles | src/game.py:98-109 | after any frame from a consistent game, the game is settled: destroyed rings are those before the index, and it is won exactly when none is left |
| Progression.RunProgress | src/game.py:98-109 | over any run of frames, the index advances by the number of gap passes, capped at the ring count, and the game is won exactly when that count is reached |
| Games.LayoutSorted | src/game.py:34-45 | after the sort by radius the radii are ascending |
| Games.BuildStepIsPermutation | src/game.py:45 | the sort places each built ring at exactly one position |
| Games.BuildRings | src/game.py:39-44 | ring i is built with radius `50 + i*spacing`, rotation `i*offset`, the configured gap and thickness; all are new and distinct |
| Games.TurnRing | src/game.py:103-104 | one ring update turns the ring as `Turned` says, keeps its flag, updates each of its particles once and keeps the survivors in order |
| Games.TurnRings | src/game.py:103-104 | every ring i turns once at speed i, destroyed rings not at all, and no flag changes |
| Games.ChecksDecideVerdict | src/game.py:90-96 | the results of the containment check and then the gap check give the verdict `VerdictAt` computes from the state |
| Games.Game.constructor | src/game.py:12-27 | the centre is the window's middle; the ball starts there with radius 8, the normalised random direction times `ball_speed` and an empty trail; the audio holds the snippets `AudioManager` cuts and starts at snippet 0; every ring is new, has no particles and is laid out as `setup_rings` builds it at its sort position, in ascending order; none is destroyed and the game is not won |
| Games.Game.SetupRings | src/game.py:34-45 | `spacing = (max_ring_radius - 50) / rings`; ring i is the ring built at its sort position, and the radii are ascending |
| Games.Game.GetInnermostActiveRing | src/game.py:47-51 | the loop returns `FirstActive` of the destroyed flags |
| Games.Game.AllRingsDestroyed | src/game.py:108 | the loop returns whether every ring is destroyed |
| Games.Game.BounceBack | src/game.py:60-63 | the ball bounces off the normal, the sequencer is asked to play, and the ball grows |
| Games.Game.CheckBallContainment | src/game.py:53-65 | True exactly when an active ring exists and the ball is farther from its centre than `ring.radius + ball.radius`; the ball then bounces off the normalised direction to the centre and grows; otherwise nothing changes |
| Games.Game.CheckGapCollision | src/game.py:67-88 | hit exactly when `abs(distance - radius) < ball.radius + thickness`; in the gap the active ring alone is destroyed and bursts into 100 new particles after its old ones, particle k built from draw k, the index goes up by one, and the ball is untouched; otherwise the ball bounces and grows and no ring changes; no ring turns |
| Games.Game.DestroyActiveRing | src/game.py:76-80 | the active ring is destroyed and bursts into 100 new particles after its old ones, particle k built from draw k; the index goes up by one; no ring turns and nothing else changes |
| Games.Game.CheckCollisions | src/game.py:90-96 | the verdict is `VerdictAt` of the state on entry; the progression moves as `Collide` says; the ball bounces on containment or a gap bounce and is untouched otherwise; the ring list and every rotation are unchanged; no particle list changes except the active ring's on a gap pass, which gains 100 after its old ones |
| Games.Game.RefreshActiveRing | src/game.py:91 | re-deriving the active index in a valid game leaves the index, the progression, the rotations and the particle lists as they were |
| Games.Game.ResolveCollision | src/game.py:93-96 | the containment check runs first and the gap check only if it fails, with the same outcome and the same frame as `CheckCollisions` |
| Games.Game.UpdateRings | src/game.py:102-104 | every ring turns at `rotation * (1 + i*offset)` unless destroyed; no flag changes; the active ring ends where `ActiveRotation(dt)` said |
| Games.Game.MoveBallAndRings | src/game.py:100-104 | the ball falls and moves as `Ball.update` does (velocity, position, trail; radius unchanged), every ring's rotation becomes `TurnedRotations(dt)`, and no flag changes |
| Games.Game.MoveAndCollide | src/game.py:100-106 | the collision verdict is `VerdictAt` of the moved ball and turned rings; the progression moves as `Collide` says; the ring list is unchanged and every ring's rotation is `TurnedRotations(dt)` of the entry state |
| Games.Game.PlayFrame | src/game.py:99-109 | a frame of a game not won: the progression moves as `Tick` says and is settled, the verdict is that of the moved ball against the turned active ring, and every rotation is `TurnedRotations(dt)` |
| Games.Game.DeclareWin | src/game.py:108-109 | the won flag is set exactly when every ring is destroyed; nothing else about the rings changes |
| Games.Game.UpdateGameState | src/game.py:98-109 | the progression moves as `Tick` says and the game is settled after every frame; a won game leaves the game's own fields, the ball, the sequencer, every ring and every particle unchanged; otherwise the verdict is that of the moved ball against the turned active ring and every rotation is `TurnedRotations(dt)`; the ring list never changes |

## Left out

- Drawing, the window, the event loop, the frame clock and `get_ring_color`. These are
  `draw`, `handle_events`, `run`, `pygame.display` and the colour of rings and particles.
  They are rendering and window I/O and change no game state. The particle drawing
  radius is drawn at random only for `draw`.
- Sound playback: `pygame.mixer`, `sndarray`, `play_bounce` and the `print` calls. These
  are outside the model. The sequencer is modelled by which samples a snippet covers.
- `time.time()` is the parameter `now`, in seconds. `pygame.time.get_ticks()` is read
  only by `run`, which turns it into the parameter `dt`.
- `random.uniform` draws are parameters. A destruction particle's `ParticleDraw` is
  required to lie in its ranges. The bounce angle `theta` (drawn from [-0.2, 0.2]) and
  the ball's first `direction` (each coordinate from [-1, 1]) are left unconstrained:
  every contract about them holds for any value.
- `math.sqrt`, `cos`, `sin` and `atan2` are the `MathLib` oracle. Floating-point rounding
  is not modelled, because numbers are `real`.
- Games.Game.SetupRings: the stable sort by radius is modelled as keeping the built order
  when the spacing is non-negative and reversing it when it is negative. That is what
  the sort does to radii `50 + i*spacing`, but no general sort is modelled.
- Games.Game.constructor: requires at least one ring. With `rings == 0`, src/game.py:36
  raises `ZeroDivisionError`; the configuration is taken as already valid.
- Games.TurnRings: states each ring's rotation and flag but not its particles. The model
  does not record that different rings hold different particle objects (in the source
  each ring creates its own), so one ring's particle update cannot be shown to leave
  another's alone. `Rings.Ring.Update` and `Games.TurnRing` state the particle update
  for one ring.
- Games.Game.UpdateRings: says nothing of the particles, for the same reason as
  `Games.TurnRings`.
- Games.Game.MoveBallAndRings: says nothing of the particles, for the same reason as
  `Games.TurnRings`.
- Games.Game.MoveAndCollide: says nothing of the particles, for the same reason as
  `Games.TurnRings`. The ball and the song sequencer after the frame are not restated:
  `MoveBallAndRings` and `CheckCollisions` state them for the two halves.
- Games.Game.PlayFrame: as `Games.Game.MoveAndCollide`, the particles, the ball and the
  sequencer are not restated.
- Games.Game.UpdateGameState: for a game not yet won, as `Games.Game.MoveAndCollide`,
  the particles, the ball and the sequencer are not restated.
- Games.Game.CheckCollisions: which particles a gap pass creates is stated by
  `Games.Game.CheckGapCollision` and `Rings.Ring.CreateDestructionParticles`, not restated
  here; this contract states only that they are 100 appended after the old ones and no
  other ring's list changes.
- Games.Game.ResolveCollision: as `Games.Game.CheckCollisions`.
- Audio.AudioManager.constructor: why the song cannot be read as an array is not
  modelled. The parameter `arrayReady` says whether it can. An exception part-way
  through the cutting loop is the same as one before it: the whole song becomes the only
  snippet, as in the source. A zero channel count is the division by zero that also
  leads there.
- `Ring.check_collision` is not called by the game loop. It is modelled on its own, with
  the spacing as a parameter.
- Ball anti-stuck, tumble or position-clamp logic: the code has none, so the model has
  none either.
- `src/recorder.py` and `main.py` are not part of this model.
