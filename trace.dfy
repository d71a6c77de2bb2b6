/** The calls the core makes, in order, to the host's callbacks and to the
    engine, and the shape of one call of retro_run's real path. */
module Trace {
  import opened Pixels
  import opened FrameEncoder

  /** The `samples` capacity retro_run passes to every runFor call, and the
      size in stereo frames of output_audio's resampler output buffer. */
  const StepCapacity: nat := 2064
  /** Bytes per row of host pixels handed to the video callback: 256 * 2. */
  const Pitch: nat := 512

  /** What the video callback receives: null (the host repeats its last
      frame) or the core's 16-bit frame buffer, recorded as its contents at
      the moment of the call. */
  datatype VideoRef = NullFrame | Frame(pixels: seq<Xrgb1555>)

  /** One call out of the core, to the host or to the engine. */
  datatype Call =
    | InputPoll                 // input_poll_cb()
    | AudioBatch(frames: nat)   // audio_batch_cb(output, frames)
    | VideoRefresh(frame: VideoRef, width: nat, height: nat, pitch: nat)
    | RunFor(capacity: nat)     // gb.runFor(video_buf, 256, sound_buf, samples)
    | StateSize                 // gb.stateSize()
    | SaveState                 // gb.saveState(data)
    | LoadState                 // gb.loadState(data)

  /** What one runFor call does, as far as the core can see: whether it
      completed a video frame (returned something other than -1), how many
      audio frames it produced (the new `samples`), the video buffer after
      it, and how many host-rate frames the resampler makes of that audio. */
  datatype StepOutcome = StepOutcome(frameDone: bool, produced: nat, video: seq<Argb8888>, resampled: nat)

  /** The engine delivers a full frame buffer and the resampler keeps
      within output_audio's buffer. The engine's audio count is not bounded
      here: sound_buf leaves room for 2064 frames beyond the requested
      capacity. */
  predicate WellFormed(s: StepOutcome) {
    |s.video| == FrameLen && s.resampled <= StepCapacity
  }

  /** output_audio: a batch is handed to the host only when the engine
      produced audio and the resampler turned it into a non-empty block. */
  function AudioCalls(produced: nat, resampled: nat): (cs: seq<Call>)
    ensures |cs| <= 1
    ensures cs != [] <==> produced != 0 && resampled != 0
    ensures forall c :: c in cs ==> c == AudioBatch(resampled)
  {
    if produced == 0 then [] else if resampled == 0 then [] else [AudioBatch(resampled)]
  }

  /** The calls of the first n engine steps: each step is a runFor with
      the full capacity followed by the audio it produced. */
  function StepCalls(steps: seq<StepOutcome>, n: nat): seq<Call>
    requires n <= |steps|
  {
    if n == 0 then []
    else StepCalls(steps, n - 1) + [RunFor(StepCapacity)] + AudioCalls(steps[n - 1].produced, steps[n - 1].resampled)
  }

  /** The audio frames the first n steps produced. */
  function TotalProduced(steps: seq<StepOutcome>, n: nat): nat
    requires n <= |steps|
  {
    if n == 0 then 0 else TotalProduced(steps, n - 1) + steps[n - 1].produced
  }

  /** Some step completes a video frame. */
  predicate HasFrameEnd(steps: seq<StepOutcome>) {
    exists k :: 0 <= k < |steps| && steps[k].frameDone
  }

  /** The first step that completes a video frame: the one that ends the
      while loop of retro_run. */
  function FirstFrameEnd(steps: seq<StepOutcome>): (k: nat)
    requires HasFrameEnd(steps)
    ensures k < |steps| && steps[k].frameDone
    ensures forall j :: 0 <= j < k ==> !steps[j].frameDone
  {
    if steps[0].frameDone then 0
    else
      var j :| 0 <= j < |steps| && steps[j].frameDone;
      assert steps[1..][j - 1] == steps[j];
      1 + FirstFrameEnd(steps[1..])
  }

  /** The loop of retro_run, one iteration further: after the runFor of
      step n come its audio and the runFor of step n + 1. */
  lemma StepCallsExtend(before: seq<Call>, steps: seq<StepOutcome>, n: nat)
    requires n < |steps|
    ensures before + StepCalls(steps, n) + [RunFor(StepCapacity)]
              + AudioCalls(steps[n].produced, steps[n].resampled) + [RunFor(StepCapacity)]
            == before + StepCalls(steps, n + 1) + [RunFor(StepCapacity)]
  {
  }

  /** The end of the loop of retro_run: after the runFor of the completing
      step n come its audio and the video call. */
  lemma StepCallsClose(before: seq<Call>, steps: seq<StepOutcome>, n: nat, video: Call)
    requires n < |steps|
    ensures before + StepCalls(steps, n) + [RunFor(StepCapacity)]
              + AudioCalls(steps[n].produced, steps[n].resampled) + [video]
            == before + StepCalls(steps, n + 1) + [video]
  {
  }

  /** Number of calls of each kind in a trace. */
  function CountRunFor(cs: seq<Call>): nat {
    if cs == [] then 0 else CountRunFor(cs[..|cs| - 1]) + (if cs[|cs| - 1].RunFor? then 1 else 0)
  }

  function CountVideo(cs: seq<Call>): nat {
    if cs == [] then 0 else CountVideo(cs[..|cs| - 1]) + (if cs[|cs| - 1].VideoRefresh? then 1 else 0)
  }

  function CountAudio(cs: seq<Call>): nat {
    if cs == [] then 0 else CountAudio(cs[..|cs| - 1]) + (if cs[|cs| - 1].AudioBatch? then 1 else 0)
  }

  /** Counting distributes over concatenation. */
  lemma {:induction false} CountsAppend(a: seq<Call>, b: seq<Call>)
    ensures CountRunFor(a + b) == CountRunFor(a) + CountRunFor(b)
    ensures CountVideo(a + b) == CountVideo(a) + CountVideo(b)
    ensures CountAudio(a + b) == CountAudio(a) + CountAudio(b)
    decreases |b|
  {
    if b == [] {
      assert a + b == a;
    } else {
      var b' := b[..|b| - 1];
      CountsAppend(a, b');
      assert (a + b)[..|a + b| - 1] == a + b';
    }
  }

  /** The first n steps emit exactly one runFor per step, at most one
      audio batch per step, and no video. */
  lemma {:induction false} StepCallsCounts(steps: seq<StepOutcome>, n: nat)
    requires n <= |steps|
    ensures CountRunFor(StepCalls(steps, n)) == n
    ensures CountAudio(StepCalls(steps, n)) <= n
    ensures CountVideo(StepCalls(steps, n)) == 0
  {
    if n != 0 {
      var s := steps[n - 1];
      var a := AudioCalls(s.produced, s.resampled);
      StepCallsCounts(steps, n - 1);
      CountsAppend(StepCalls(steps, n - 1), [RunFor(StepCapacity)]);
      CountsAppend(StepCalls(steps, n - 1) + [RunFor(StepCapacity)], a);
      if a != [] {
        assert a == [AudioBatch(s.resampled)];
        assert a[..0] == [];
      }
    }
  }

  /** Every audio batch comes right after the runFor whose audio it carries,
      and every batch fits the resampler's output buffer. */
  lemma {:induction false} AudioFollowsRunFor(steps: seq<StepOutcome>, n: nat, i: nat)
    requires n <= |steps|
    requires forall k :: 0 <= k < |steps| ==> WellFormed(steps[k])
    requires i < |StepCalls(steps, n)| && StepCalls(steps, n)[i].AudioBatch?
    ensures 0 < i && StepCalls(steps, n)[i - 1] == RunFor(StepCapacity)
    ensures 0 < StepCalls(steps, n)[i].frames <= StepCapacity
  {
    var s := steps[n - 1];
    var pre := StepCalls(steps, n - 1);
    var a := AudioCalls(s.produced, s.resampled);
    assert StepCalls(steps, n) == pre + [RunFor(StepCapacity)] + a;
    if i < |pre| {
      AudioFollowsRunFor(steps, n - 1, i);
    } else {
      assert i == |pre| + 1;
    }
  }

  /** The calls of the steps start with a runFor (no audio before the engine
      has run). */
  lemma StepCallsStart(steps: seq<StepOutcome>, n: nat)
    requires 0 < n <= |steps|
    ensures StepCalls(steps, n)[0] == RunFor(StepCapacity)
  {
    StepCallsPrefix(steps, 1, n);
  }

  /** The calls of fewer steps are a prefix of the calls of more. */
  lemma {:induction false} StepCallsPrefix(steps: seq<StepOutcome>, m: nat, n: nat)
    requires m <= n <= |steps|
    ensures StepCalls(steps, m) <= StepCalls(steps, n)
    decreases n - m
  {
    if m < n {
      StepCallsPrefix(steps, m, n - 1);
    }
  }

  /** The calls of a repeated frame: the poll and the one video call. */
  function RepeatCalls(frame: VideoRef): seq<Call> {
    [InputPoll, VideoRefresh(frame, Width, Height, Pitch)]
  }

  /** The calls of a real frame: the poll, the engine steps up to the first
      one that completes a frame, each with its audio, and the one video
      call. */
  function FrameCalls(steps: seq<StepOutcome>, frame: VideoRef): seq<Call>
    requires HasFrameEnd(steps)
  {
    [InputPoll] + StepCalls(steps, FirstFrameEnd(steps) + 1) + [VideoRefresh(frame, Width, Height, Pitch)]
  }

  /** A repeat polls once, shows one frame, and neither runs the engine nor
      passes on audio. */
  lemma RepeatCallsCounts(frame: VideoRef)
    ensures CountVideo(RepeatCalls(frame)) == 1
    ensures CountRunFor(RepeatCalls(frame)) == 0 && CountAudio(RepeatCalls(frame)) == 0
  {
    assert RepeatCalls(frame)[..1] == [InputPoll];
    assert [InputPoll][..0] == [];
  }

  /** A real frame polls first, runs the engine once per step up to the
      first completing one, passes on at most one batch per step, and ends
      with its one video call. */
  lemma FrameCallsCounts(steps: seq<StepOutcome>, frame: VideoRef)
    requires HasFrameEnd(steps)
    ensures var cs := FrameCalls(steps, frame);
            && cs[0] == InputPoll
            && cs[|cs| - 1] == VideoRefresh(frame, Width, Height, Pitch)
            && CountVideo(cs) == 1
            && CountRunFor(cs) == FirstFrameEnd(steps) + 1
            && CountAudio(cs) <= FirstFrameEnd(steps) + 1
  {
    var mid := StepCalls(steps, FirstFrameEnd(steps) + 1);
    StepCallsCounts(steps, FirstFrameEnd(steps) + 1);
    CountsAppend([InputPoll], mid);
    CountsAppend([InputPoll] + mid, [VideoRefresh(frame, Width, Height, Pitch)]);
    assert [InputPoll][..0] == [];
    assert [VideoRefresh(frame, Width, Height, Pitch)][..0] == [];
  }
}
