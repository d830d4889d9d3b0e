/** The song-snippet sequencer of src/managers/audio_manager.py. The song's array is cut
    into snippets of `44100 * channels` rows each; each collision plays the next one,
    round-robin, unless the last one started less than a cooldown ago. Loading, mixing and playing sound are outside
    the model: `Snippet` records which samples a snippet covers, the outcome of loading
    is a constructor parameter, and the current time is a parameter of each call. */
module Audio {
  import opened Options
  import opened Arithmetic

  /** `sample_rate` */
  const SampleRate: nat := 44100
  /** `collision_cooldown`, in seconds. */
  const CollisionCooldown: real := 0.1

  /** A snippet: the samples [start, end) of the song, or the whole song. */
  datatype Snippet = Slice(start: nat, end: nat) | WholeSong

  /** The snippets `__init__` cuts a song array of `totalSamples` rows into: one per whole
      `samplesPerSecond` rows, the rest of the song being dropped. */
  function Slices(totalSamples: nat, samplesPerSecond: nat): (r: seq<Snippet>)
    requires samplesPerSecond > 0
  {
    seq(totalSamples / samplesPerSecond, i requires 0 <= i => Slice(i * samplesPerSecond, i * samplesPerSecond + samplesPerSecond))
  }

  /** The slices start at row 0, each is `samplesPerSecond` rows long and starts where the
      previous one ends, and together they end within the song, less than one slice
      before its end. */
  lemma SlicesTileSong(totalSamples: nat, samplesPerSecond: nat)
    requires samplesPerSecond > 0
    ensures var r := Slices(totalSamples, samplesPerSecond);
      && (|r| > 0 ==> r[0].start == 0)
      && (forall i :: 0 <= i < |r| ==> r[i].Slice? && r[i].end - r[i].start == samplesPerSecond)
      && (forall i :: 0 <= i < |r| - 1 ==> r[i].end == r[i + 1].start)
      && (forall i :: 0 <= i < |r| ==> r[i].end <= totalSamples)
      && (|r| > 0 ==> totalSamples - r[|r| - 1].end < samplesPerSecond)
      && (|r| == 0 ==> totalSamples < samplesPerSecond)
  {
    var r := Slices(totalSamples, samplesPerSecond);
    var sps := samplesPerSecond;
    var q := totalSamples / sps;
    DivBounds(totalSamples, sps);
    forall i | 0 <= i < |r| - 1
      ensures r[i].end == r[i + 1].start
    {
      assert i * sps + sps == (i + 1) * sps;
    }
    forall i | 0 <= i < |r|
      ensures r[i].end <= totalSamples
    {
      assert i * sps + sps == (i + 1) * sps;
      MulMonotone(i + 1, q, sps);
    }
    if |r| > 0 {
      assert (q - 1) * sps + sps == q * sps;
    }
  }

  /** The cutting loop of `__init__`, given the song length and the samples per second. */
  method SliceSong(totalSamples: nat, samplesPerSecond: nat) returns (snippets: seq<Snippet>)
    requires samplesPerSecond > 0
    ensures snippets == Slices(totalSamples, samplesPerSecond)
  {
    var totalSeconds := totalSamples / samplesPerSecond;
    snippets := [];
    var i := 0;
    while i < totalSeconds
      invariant 0 <= i <= totalSeconds
      invariant snippets == Slices(totalSamples, samplesPerSecond)[..i]
    {
      var start := i * samplesPerSecond;
      var end := start + samplesPerSecond;
      snippets := snippets + [Slice(start, end)];
      i := i + 1;
    }
  }

  /** The sequencer's position: the next snippet to play and when the last one started. */
  datatype Sequencer = Sequencer(index: int, last: real)

  /** The outcome of one `play_song_snippet()`: the new position, and the index of the
      snippet played, if any. */
  datatype PlayOutcome = PlayOutcome(next: Sequencer, played: Option<int>)

  /** `play_song_snippet()` at time `now`, with `count` snippets: nothing happens without
      snippets, without a song channel, or within the cooldown; otherwise the current
      snippet plays and the index moves on, wrapping round. */
  function Play(s: Sequencer, count: nat, hasChannel: bool, now: real): PlayOutcome {
    if count > 0 && hasChannel && now - s.last > CollisionCooldown then
      PlayOutcome(Sequencer((s.index + 1) % count, now), Some(s.index))
    else
      PlayOutcome(s, None)
  }

  /** An index within the snippets stays within them. */
  lemma PlayKeepsIndexInRange(s: Sequencer, count: nat, hasChannel: bool, now: real)
    requires 0 <= s.index < count
    ensures 0 <= Play(s, count, hasChannel, now).next.index < count
    ensures Play(s, count, hasChannel, now).played.Some? ==> 0 <= Play(s, count, hasChannel, now).played.value < count
  {
  }

  /** A sequence of calls at the given times: the final position and the indices of the
      snippets played, in order. */
  function PlayAll(s: Sequencer, count: nat, hasChannel: bool, times: seq<real>): (Sequencer, seq<int>)
    decreases |times|
  {
    if times == [] then (s, [])
    else
      var first := Play(s, count, hasChannel, times[0]);
      var rest := PlayAll(first.next, count, hasChannel, times[1..]);
      (rest.0, (if first.played.Some? then [first.played.value] else []) + rest.1)
  }

  /** One played snippet before a round-robin run from the next index is a round-robin
      run from its own index. */
  lemma PrependRoundRobin(j: int, count: nat, restFinal: int, rest: seq<int>)
    requires 0 <= j < count
    requires restFinal == ((j + 1) % count + |rest|) % count
    requires forall k :: 0 <= k < |rest| ==> rest[k] == ((j + 1) % count + k) % count
    ensures restFinal == (j + |[j] + rest|) % count
    ensures forall k :: 0 <= k < |[j] + rest| ==> ([j] + rest)[k] == (j + k) % count
  {
    ModShift(j + 1, |rest|, count);
    PrependRoundRobinIndices(j, count, rest);
  }

  lemma PrependRoundRobinIndices(j: int, count: nat, rest: seq<int>)
    requires 0 <= j < count
    requires forall k :: 0 <= k < |rest| ==> rest[k] == ((j + 1) % count + k) % count
    ensures forall k :: 0 <= k < |[j] + rest| ==> ([j] + rest)[k] == (j + k) % count
  {
    var all := [j] + rest;
    DivModUnique(j, count, 0, j);
    forall k | 1 <= k < |all|
      ensures all[k] == (j + k) % count
    {
      assert all[k] == rest[k - 1];
      ModShift(j + 1, k - 1, count);
    }
  }

  /** Snippets are played round-robin: starting from index i, the k-th snippet played is
      snippet (i + k) mod count, and the index ends up (i + number played) mod count. */
  lemma {:induction false} RoundRobin(s: Sequencer, count: nat, hasChannel: bool, times: seq<real>)
    requires 0 <= s.index < count
    ensures var (final, played) := PlayAll(s, count, hasChannel, times);
      && final.index == (s.index + |played|) % count
      && forall k :: 0 <= k < |played| ==> played[k] == (s.index + k) % count
    decreases |times|
  {
    if times != [] {
      var first := Play(s, count, hasChannel, times[0]);
      PlayKeepsIndexInRange(s, count, hasChannel, times[0]);
      RoundRobin(first.next, count, hasChannel, times[1..]);
      var rest := PlayAll(first.next, count, hasChannel, times[1..]);
      var all := PlayAll(s, count, hasChannel, times);
      if first.played.Some? {
        assert all.1 == [s.index] + rest.1;
        PrependRoundRobin(s.index, count, rest.0.index, rest.1);
      } else {
        assert first.next == s && all.0 == rest.0 && all.1 == rest.1;
      }
    }
  }

  class AudioManager {
    const snippets: seq<Snippet>
    const hasSongChannel: bool
    var currentSnippetIndex: int
    var lastCollisionTime: real

    ghost predicate Valid()
      reads this
    {
      0 <= currentSnippetIndex && (currentSnippetIndex < |snippets| || currentSnippetIndex == 0)
    }

    function State(): Sequencer
      reads this
    {
      Sequencer(currentSnippetIndex, lastCollisionTime)
    }

    /** `AudioManager()`: when the sound files and channels load (`loaded`), the song is cut
        into snippets of `samples_per_second = 44100 * numChannels` rows; if the song cannot be
        read as an array (`arrayReady` false) or the cut fails by a division by zero, the
        whole song is the only snippet. Without the sound files there are no snippets
        and no song channel. */
    constructor(loaded: bool, arrayReady: bool, totalSamples: nat, numChannels: nat)
      ensures hasSongChannel == loaded
      ensures !loaded ==> snippets == []
      ensures loaded && arrayReady && numChannels > 0 ==> snippets == Slices(totalSamples, SampleRate * numChannels)
      ensures loaded && !(arrayReady && numChannels > 0) ==> snippets == [WholeSong]
      ensures State() == Sequencer(0, 0.0) && Valid()
    {
      var s: seq<Snippet> := [];
      if loaded {
        if arrayReady && numChannels > 0 {
          s := SliceSong(totalSamples, SampleRate * numChannels);
        } else {
          s := [WholeSong];
        }
      }
      snippets := s;
      hasSongChannel := loaded;
      currentSnippetIndex := 0;
      lastCollisionTime := 0.0;
    }

    /** `play_song_snippet()` at time `now`; returns the snippet played, if any. */
    method PlaySongSnippet(now: real) returns (played: Option<Snippet>)
      requires Valid()
      modifies this
      ensures Valid()
      ensures State() == Play(old(State()), |snippets|, hasSongChannel, now).next
      ensures var p := Play(old(State()), |snippets|, hasSongChannel, now).played;
        played == if p.Some? then Some(snippets[p.value]) else None
    {
      played := None;
      if |snippets| > 0 && hasSongChannel {
        if now - lastCollisionTime > CollisionCooldown {
          played := Some(snippets[currentSnippetIndex]);
          currentSnippetIndex := (currentSnippetIndex + 1) % |snippets|;
          lastCollisionTime := now;
        }
      }
    }

    /** `reset_song_sequence()`: back to the first snippet; the cooldown clock is kept. */
    method ResetSongSequence()
      requires Valid()
      modifies this
      ensures Valid()
      ensures currentSnippetIndex == 0 && lastCollisionTime == old(lastCollisionTime)
    {
      currentSnippetIndex := 0;
    }
  }
}
