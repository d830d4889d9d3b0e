/** The ring-progression rules of the game (src/game.py, `check_collisions` and
    `update_game_state`), on values: the destroyed flag of each ring from the innermost
    out, the index of the active ring, and whether the game is won. `Games.Game` keeps
    these in its rings and fields and is proved to change them as `Tick` does. */
module Progression {

  /** What `check_collisions` finds for the active ring. */
  datatype Verdict =
    | Contained    // the ball is outside the active ring: `check_ball_containment` bounces it
    | GapPass      // the ball is at the ring and in its gap: the ring is destroyed
    | GapBounce    // the ball is at the ring but not in its gap: it bounces off
    | NoCollision  // nothing happens

  datatype State = State(destroyed: seq<bool>, active: int, won: bool)

  /** `get_innermost_active_ring()`: the index of the first ring not destroyed, or the
      number of rings when all are destroyed. */
  function FirstActive(d: seq<bool>): (r: nat)
    ensures r <= |d|
    ensures forall i :: 0 <= i < r ==> d[i]
    ensures r < |d| ==> !d[r]
    decreases |d|
  {
    if d == [] then 0
    else if !d[0] then 0
    else 1 + FirstActive(d[1..])
  }

  /** `FirstActive` is the only index with all flags before it set and its own clear. */
  lemma FirstActiveUnique(d: seq<bool>, r: nat)
    requires r <= |d|
    requires forall i :: 0 <= i < r ==> d[i]
    requires r < |d| ==> !d[r]
    ensures FirstActive(d) == r
  {
    var a := FirstActive(d);
    assert a > 0 ==> d[a - 1];
    assert r > 0 ==> d[r - 1];
  }

  predicate AllDestroyed(d: seq<bool>) {
    forall i :: 0 <= i < |d| ==> d[i]
  }

  function Abs(x: real): real {
    if x < 0.0 then -x else x
  }

  /** The decision of `check_collisions` once the active index is known: without an
      active ring, nothing; otherwise the containment test comes first, and only if it
      fails is the ring's band tested, the gap deciding between passing and bouncing. */
  function Classify(active: int, ringCount: int, distance: real, ringRadius: real,
                    ballRadius: real, thickness: real, inGap: bool): Verdict
  {
    if !(active < ringCount) then NoCollision
    else if distance > ringRadius + ballRadius then Contained
    else if Abs(distance - ringRadius) < ballRadius + thickness then
      (if inGap then GapPass else GapBounce)
    else NoCollision
  }

  /** `check_collisions()`: the active index is re-derived first; a gap pass destroys
      exactly the active ring and moves the index past it. */
  function Collide(s: State, v: Verdict): State {
    var a := FirstActive(s.destroyed);
    if v == GapPass && a < |s.destroyed| then State(s.destroyed[a := true], a + 1, s.won)
    else State(s.destroyed, a, s.won)
  }

  /** One `update_game_state(dt)`: nothing once the game is won; otherwise the collision
      step, after which the game is won if every ring is destroyed. */
  function Tick(s: State, v: Verdict): State {
    if s.won then s
    else
      var c := Collide(s, v);
      if AllDestroyed(c.destroyed) then State(c.destroyed, c.active, true) else c
  }

  /** The invariant the game keeps between and within frames: the destroyed rings are
      exactly those before the active index, and a won game has no ring left. */
  predicate Consistent(s: State) {
    && 0 <= s.active <= |s.destroyed|
    && (forall i :: 0 <= i < |s.destroyed| ==> (s.destroyed[i] <==> i < s.active))
    && (s.won ==> s.active == |s.destroyed|)
  }

  /** What holds at the end of every frame: besides `Consistent`, the game is won exactly
      when no ring is left. Inside a frame the last ring can be destroyed before the
      won flag is set. */
  predicate Settled(s: State) {
    Consistent(s) && (s.won <==> s.active == |s.destroyed|)
  }

  /** A fresh game with at least one ring is consistent. */
  lemma InitialConsistent(n: nat)
    requires n > 0
    ensures Settled(State(seq(n, i => false), 0, false))
  {
  }

  /** In a consistent state, the innermost active ring is the active index. */
  lemma FirstActiveOfConsistent(s: State)
    requires Consistent(s)
    ensures FirstActive(s.destroyed) == s.active
  {
    FirstActiveUnique(s.destroyed, s.active);
  }

  /** The containment test takes precedence: a ball outside the active ring is bounced
      back whether or not it lines up with the gap. */
  lemma ContainmentTakesPrecedence(active: int, ringCount: int, distance: real, ringRadius: real,
                                   ballRadius: real, thickness: real, inGap: bool)
    requires active < ringCount && distance > ringRadius + ballRadius
    ensures Classify(active, ringCount, distance, ringRadius, ballRadius, thickness, inGap) == Contained
  {
  }

  /** A gap pass needs the ball inside the active ring, within the detection band, and in
      the gap; without an active ring nothing is found at all. */
  lemma GapPassConditions(active: int, ringCount: int, distance: real, ringRadius: real,
                          ballRadius: real, thickness: real, inGap: bool)
    ensures Classify(active, ringCount, distance, ringRadius, ballRadius, thickness, inGap) == GapPass <==>
      active < ringCount && distance <= ringRadius + ballRadius &&
      Abs(distance - ringRadius) < ballRadius + thickness && inGap
    ensures !(active < ringCount) ==>
      Classify(active, ringCount, distance, ringRadius, ballRadius, thickness, inGap) == NoCollision
  {
  }

  /** A tick never clears a destroyed flag, and at most one flag changes: that of the
      innermost active ring, on a gap pass. */
  lemma TickMonotone(s: State, v: Verdict)
    ensures |Tick(s, v).destroyed| == |s.destroyed|
    ensures forall i :: 0 <= i < |s.destroyed| && s.destroyed[i] ==> Tick(s, v).destroyed[i]
    ensures forall i :: 0 <= i < |s.destroyed| && Tick(s, v).destroyed[i] != s.destroyed[i] ==>
              i == FirstActive(s.destroyed) && v == GapPass && !s.won
  {
  }

  /** Once won, the game never changes again. */
  lemma WonIsFinal(s: State, v: Verdict)
    requires s.won
    ensures Tick(s, v) == s
  {
  }

  /** After a tick the game is won exactly when every ring is destroyed, provided a won
      game had all its rings destroyed before. */
  lemma WonIffAllDestroyed(s: State, v: Verdict)
    requires s.won ==> AllDestroyed(s.destroyed)
    ensures Tick(s, v).won <==> AllDestroyed(Tick(s, v).destroyed)
  {
  }

  /** Anything but a gap pass leaves every ring as it was. */
  lemma OnlyGapPassDestroys(s: State, v: Verdict)
    requires v != GapPass
    ensures Tick(s, v).destroyed == s.destroyed
  {
  }

  /** While a ring is left, a gap pass destroys exactly the active ring and advances the
      index by one. */
  lemma GapPassAdvances(s: State)
    requires Consistent(s) && s.active < |s.destroyed|
    ensures Tick(s, GapPass).destroyed == s.destroyed[s.active := true]
    ensures Tick(s, GapPass).active == s.active + 1
  {
    FirstActiveOfConsistent(s);
  }

  /** In a consistent state, re-deriving the active index changes nothing: only a gap
      pass with a ring left changes the state, by destroying the active ring. */
  lemma CollideOfConsistent(s: State, v: Verdict)
    requires Consistent(s)
    ensures Collide(s, v) ==
      if v == GapPass && s.active < |s.destroyed| then State(s.destroyed[s.active := true], s.active + 1, s.won)
      else s
  {
    FirstActiveOfConsistent(s);
  }

  /** The collision step alone keeps the game consistent. */
  lemma CollidePreservesConsistent(s: State, v: Verdict)
    requires Consistent(s)
    ensures Consistent(Collide(s, v))
  {
    FirstActiveOfConsistent(s);
  }

  /** After a tick from any consistent state, the game is settled. */
  lemma TickSettles(s: State, v: Verdict)
    requires Consistent(s)
    ensures Settled(Tick(s, v))
  {
    FirstActiveOfConsistent(s);
    var t := Tick(s, v);
    assert t.active < |t.destroyed| ==> !t.destroyed[t.active];
  }

  /** A run of ticks with the given verdicts. */
  function Run(s: State, vs: seq<Verdict>): State
    decreases |vs|
  {
    if vs == [] then s else Run(Tick(s, vs[0]), vs[1..])
  }

  function GapPasses(vs: seq<Verdict>): nat
    decreases |vs|
  {
    if vs == [] then 0 else (if vs[0] == GapPass then 1 else 0) + GapPasses(vs[1..])
  }

  function MinInt(a: int, b: int): int {
    if a <= b then a else b
  }

  /** From a consistent state, each gap pass destroys one more ring until none is left:
      the game is won exactly when the gap passes reach the number of rings remaining. */
  lemma {:induction false} RunProgress(s: State, vs: seq<Verdict>)
    requires Settled(s)
    ensures Settled(Run(s, vs))
    ensures Run(s, vs).active == MinInt(s.active + GapPasses(vs), |s.destroyed|)
    ensures Run(s, vs).won <==> s.active + GapPasses(vs) >= |s.destroyed|
    decreases |vs|
  {
    if vs != [] {
      var t := Tick(s, vs[0]);
      TickSettles(s, vs[0]);
      FirstActiveOfConsistent(s);
      if vs[0] == GapPass && !s.won {
        GapPassAdvances(s);
      }
      RunProgress(t, vs[1..]);
    }
  }
}
