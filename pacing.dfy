/** The frame/sample counters of retro_run and the duplicate-frame rule:
    when the audio produced so far is ahead of the frames shown, the host
    frame is a repeat and the engine is not run. */
module Pacing {

  /** Audio frames the engine produces per video frame: its native audio
      rate is 35112 times its frame rate of 4194304/70224 Hz. */
  const SamplesPerFrame: nat := 35112

  /** samples_count and frames_count. */
  datatype Counters = Counters(frames: nat, samples: nat)

  /** The duplicate-frame test of retro_run: fewer frames shown than the
      audio produced so far accounts for. Without the division: the audio
      covers at least one whole frame more than has been shown. */
  predicate Dupe(c: Counters): (r: bool)
    ensures r <==> SamplesPerFrame * (c.frames + 1) <= c.samples
  {
    c.frames < c.samples / SamplesPerFrame
  }

  /** The counters after one retro_run call; `produced` is what the engine
      steps of a real call add to samples_count (unused on a repeat). */
  function NextCounters(c: Counters, produced: nat): (d: Counters)
    ensures d.frames == c.frames + 1
    ensures d.samples == if Dupe(c) then c.samples else c.samples + produced
  {
    if Dupe(c) then Counters(c.frames + 1, c.samples)
    else Counters(c.frames + 1, c.samples + produced)
  }

  /** The counters after a session of calls. */
  function Session(c: Counters, produced: seq<nat>): Counters {
    if produced == [] then c
    else NextCounters(Session(c, produced[..|produced| - 1]), produced[|produced| - 1])
  }

  /** The counters start at zero, so the first call is never a repeat. */
  lemma FirstCallIsReal()
    ensures !Dupe(Counters(0, 0))
  {
  }

  /** A repeat never overtakes the audio: afterwards the frames shown are
      at most what the audio accounts for. */
  lemma DupeCatchesUp(c: Counters, produced: nat)
    requires Dupe(c)
    ensures NextCounters(c, produced).frames <= NextCounters(c, produced).samples / SamplesPerFrame
  {
  }

  /** The frames shown are at most one ahead of the audio. */
  predicate WithinOne(c: Counters) {
    c.frames <= c.samples / SamplesPerFrame + 1
  }

  /** One call keeps the frames at most one ahead of the audio, provided a
      real call produces at least one frame's worth of audio (the engine's
      behaviour, not something the core checks). */
  lemma WithinOnePreserved(c: Counters, produced: nat)
    requires WithinOne(c)
    requires produced >= SamplesPerFrame
    ensures WithinOne(NextCounters(c, produced))
  {
    if !Dupe(c) {
      DivAddOne(c.samples, produced);
    }
  }

  lemma DivAddOne(a: nat, b: nat)
    requires b >= SamplesPerFrame
    ensures (a + b) / SamplesPerFrame >= a / SamplesPerFrame + 1
  {
    assert a + b >= a + SamplesPerFrame;
    assert (a + SamplesPerFrame) / SamplesPerFrame == a / SamplesPerFrame + 1;
  }

  /** Over a whole session from power-on, under the same assumption on the
      engine: frames never run more than one ahead of the audio, and every
      call shows exactly one frame. */
  lemma {:induction false} SessionWithinOne(produced: seq<nat>)
    requires forall i :: 0 <= i < |produced| ==> produced[i] >= SamplesPerFrame
    ensures WithinOne(Session(Counters(0, 0), produced))
    ensures Session(Counters(0, 0), produced).frames == |produced|
  {
    if produced != [] {
      var init := produced[..|produced| - 1];
      SessionWithinOne(init);
      WithinOnePreserved(Session(Counters(0, 0), init), produced[|produced| - 1]);
    }
  }

  /** Without that assumption the bound does not hold: an engine producing
      no audio lets the frame counter run ahead. */
  lemma WithinOneNeedsAudio()
    ensures !WithinOne(Session(Counters(0, 0), [0, 0]))
  {
    assert [0, 0][..1] == [0];
    assert [0][..0] == [];
  }
}
