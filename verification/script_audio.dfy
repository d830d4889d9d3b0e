/** The earlier song player of script.py (its `AudioManager`, lines 75-126). Instead of
    cutting the song up front, it keeps a cursor `current_second` and slices the next
    `samples_per_second` rows of the song array on each collision, going back to the
    start once the cursor passes the end. Sound loading and playback are outside the model: `songSamples` is the
    length of the loaded song array, or `None` when the song or its array did not load,
    and the current time is a parameter of each call. */
module ScriptAudio {
  import opened Options
  import Audio

  /** `samples_per_second`: `44100 * 2`, the rows of the song array one slice covers. */
  const SamplesPerSecond: nat := 88200

  /** The player's position: the next second to play and when the last one started. */
  datatype Cursor = Cursor(second: nat, last: real)

  datatype CursorOutcome = CursorOutcome(next: Cursor, played: Option<Audio.Snippet>)

  function Min(a: nat, b: nat): nat {
    if a <= b then a else b
  }

  /** `play_song_snippet()` at time `now`: without a song, or within the cooldown, nothing
      happens. Otherwise, if the cursor is still inside the song, the next slice of it
      (cut short at the song's end) plays and the cursor advances; if not, the cursor goes
      back to the start and nothing plays, the cooldown clock being left alone. */
  function CursorPlay(c: Cursor, songSamples: Option<nat>, now: real): CursorOutcome {
    if songSamples.Some? && now - c.last > Audio.CollisionCooldown then
      var start := c.second * SamplesPerSecond;
      var end := start + SamplesPerSecond;
      if start < songSamples.value then
        CursorOutcome(Cursor(c.second + 1, now), Some(Audio.Slice(start, Min(end, songSamples.value))))
      else
        CursorOutcome(Cursor(0, c.last), None)
    else
      CursorOutcome(c, None)
  }

  /** Whatever plays is a nonempty piece of the song of at most one slice, starting at
      the cursor's slice. */
  lemma PlayedSliceWithinSong(c: Cursor, songSamples: Option<nat>, now: real)
    ensures var out := CursorPlay(c, songSamples, now);
      out.played.Some? ==>
        && songSamples.Some? && out.played.value.Slice?
        && out.played.value.start == c.second * SamplesPerSecond
        && out.played.value.start < out.played.value.end <= songSamples.value
        && out.played.value.end - out.played.value.start <= SamplesPerSecond
        && out.next.last == now
  {
  }

  /** Two successive plays cover adjacent slices of the song: the second starts one
      slice after the first, exactly where the first ended. */
  lemma {:induction false} SuccessivePlaysAreContiguous(c: Cursor, songSamples: Option<nat>, t1: real, t2: real)
    requires CursorPlay(c, songSamples, t1).played.Some?
    requires CursorPlay(CursorPlay(c, songSamples, t1).next, songSamples, t2).played.Some?
    ensures CursorPlay(CursorPlay(c, songSamples, t1).next, songSamples, t2).played.value.start ==
            CursorPlay(c, songSamples, t1).played.value.start + SamplesPerSecond
    ensures CursorPlay(c, songSamples, t1).played.value.Slice? &&
            CursorPlay(c, songSamples, t1).played.value.end ==
            CursorPlay(CursorPlay(c, songSamples, t1).next, songSamples, t2).played.value.start
  {
    var next := CursorPlay(c, songSamples, t1).next;
    assert next.second == c.second + 1;
    assert next.second * SamplesPerSecond == c.second * SamplesPerSecond + SamplesPerSecond;
  }

  /** Past the end of a nonempty song, the first call outside the cooldown plays nothing and
      rewinds; the next call outside the cooldown plays the song's first slice. */
  lemma WrapsToStart(c: Cursor, songLength: nat, t1: real, t2: real)
    requires songLength > 0 && c.second * SamplesPerSecond >= songLength
    requires t1 - c.last > Audio.CollisionCooldown && t2 - c.last > Audio.CollisionCooldown
    ensures CursorPlay(c, Some(songLength), t1) == CursorOutcome(Cursor(0, c.last), None)
    ensures CursorPlay(Cursor(0, c.last), Some(songLength), t2).played == Some(Audio.Slice(0, Min(SamplesPerSecond, songLength)))
  {
  }

  class AudioManager {
    const songSamples: Option<nat>
    var currentSecond: nat
    var lastCollisionTime: real

    function State(): Cursor
      reads this
    {
      Cursor(currentSecond, lastCollisionTime)
    }

    /** `AudioManager()` of script.py: the cursor starts at second 0 and the clock at 0. */
    constructor(songSamples: Option<nat>)
      ensures this.songSamples == songSamples && State() == Cursor(0, 0.0)
    {
      this.songSamples := songSamples;
      currentSecond := 0;
      lastCollisionTime := 0.0;
    }

    /** `play_song_snippet()` at time `now`; returns the slice played, if any. */
    method PlaySongSnippet(now: real) returns (played: Option<Audio.Snippet>)
      modifies this
      ensures State() == CursorPlay(old(State()), songSamples, now).next
      ensures played == CursorPlay(old(State()), songSamples, now).played
    {
      played := None;
      if songSamples.Some? {
        if now - lastCollisionTime > Audio.CollisionCooldown {
          var startSample := currentSecond * SamplesPerSecond;
          var endSample := startSample + SamplesPerSecond;
          if startSample < songSamples.value {
            played := Some(Audio.Slice(startSample, Min(endSample, songSamples.value)));
            currentSecond := currentSecond + 1;
            lastCollisionTime := now;
          } else {
            currentSecond := 0;
          }
        }
      }
    }
  }
}
