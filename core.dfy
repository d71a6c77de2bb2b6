/** The static state of the libretro glue and the entry points that change
    it: retro_run with its dupe detector and engine loop, output_audio, and
    the size-guarded retro_serialize / retro_unserialize. The engine and the
    resampler are collaborators whose answers come in as parameters; every
    call the core makes out, to the host or to the engine, is appended to
    `calls`. */
module Libretro {
  import opened Pixels
  import opened FrameEncoder
  import opened Trace
  import opened Pacing
  import opened StateGuard

  class Core {
    /** static uint64_t samples_count, frames_count (of retro_run). */
    var samplesCount: nat
    var framesCount: nat
    /** static uint16_t output_video[256 * 144] (of retro_run). */
    var outputVideo: array<Xrgb1555>
    /** static bool can_dupe: the host accepts a null frame as "repeat". */
    var canDupe: bool
    /** static size_t serialize_size: 0 until the engine reports a size. */
    var serializeSize: nat
    /** Every call out of the core so far, in order. */
    var calls: seq<Call>

    ghost predicate Valid()
      reads this
    {
      outputVideo.Length == FrameLen
    }

    /** The counters as one value. */
    function Counters(): Pacing.Counters
      reads this
    {
      Pacing.Counters(framesCount, samplesCount)
    }

    /** The next retro_run call is a repeat. */
    predicate DupePending()
      reads this
    {
      Dupe(Counters())
    }

    /** The state at load time: zeroed statics, and can_dupe as the host
      answered RETRO_ENVIRONMENT_GET_CAN_DUPE in retro_init. */
    constructor (hostCanDupe: bool)
      ensures Valid() && fresh(outputVideo)
      ensures samplesCount == 0 && framesCount == 0 && serializeSize == 0 && calls == []
      ensures outputVideo[..] == seq(FrameLen, _ => 0 as Xrgb1555)
      ensures canDupe == hostCanDupe
      ensures !DupePending()
    {
      samplesCount, framesCount := 0, 0;
      outputVideo := new Xrgb1555[FrameLen](_ => 0);
      canDupe := hostCanDupe;
      serializeSize := 0;
      calls := [];
    }

    /** gb.runFor(video_buf, 256, sound_buf.u32, samples) as far as the core
      sees it: the engine gets `capacity` audio frames of room, writes the
      video buffer, and reports whether the frame is complete and how much
      audio it produced. */
    method EngineRunFor(step: StepOutcome, capacity: nat, videoBuf: array<Argb8888>)
      returns (frameDone: bool, samples: nat)
      requires WellFormed(step) && videoBuf.Length == FrameLen
      modifies this`calls, videoBuf
      ensures calls == old(calls) + [RunFor(capacity)]
      ensures videoBuf[..] == step.video
      ensures frameDone == step.frameDone && samples == step.produced
    {
      calls := calls + [RunFor(capacity)];
      forall i | 0 <= i < FrameLen {
        videoBuf[i] := step.video[i];
      }
      frameDone, samples := step.frameDone, step.produced;
    }

    /** output_audio: nothing for an empty block; otherwise the block goes
      through the resampler (which makes `resampled` host-rate frames of it)
      and the result is handed to the host unless it is empty. */
    method OutputAudio(frames: nat, resampled: nat)
      modifies this`calls
      ensures calls == old(calls) + AudioCalls(frames, resampled)
    {
      if frames == 0 {
        return;
      }
      var len := resampled;
      if len != 0 {
        calls := calls + [AudioBatch(len)];
      }
    }

    /** retro_run. On a repeat (frames_count behind samples_count / 35112)
      it polls, passes the previous frame or null to the host and counts the
      frame, without running the engine. Otherwise it runs the engine step
      by step, passing on each step's audio, until a step completes a frame,
      then converts that frame, passes it on and counts it. `steps` are the
      engine's answers in order; the result is how many were used. */
    method Run(steps: seq<StepOutcome>) returns (used: nat)
      requires Valid()
      requires forall k :: 0 <= k < |steps| ==> WellFormed(steps[k])
      requires !DupePending() ==> HasFrameEnd(steps)
      modifies this, outputVideo
      ensures Valid() && outputVideo == old(outputVideo)
      ensures canDupe == old(canDupe) && serializeSize == old(serializeSize)
      ensures framesCount == old(framesCount) + 1
      ensures used <= |steps| && Counters() == NextCounters(old(Counters()), TotalProduced(steps, used))
      ensures old(DupePending()) ==>
                && used == 0
                && samplesCount == old(samplesCount)
                && outputVideo[..] == old(outputVideo[..])
                && calls == old(calls) + RepeatCalls(if canDupe then NullFrame else Frame(old(outputVideo[..])))
      ensures !old(DupePending()) ==>
                && used == FirstFrameEnd(steps) + 1 && WellFormed(steps[used - 1])
                && samplesCount == old(samplesCount) + TotalProduced(steps, used)
                && outputVideo[..] == ConvertedFrame(old(outputVideo[..]), steps[used - 1].video)
                && calls == old(calls) + FrameCalls(steps, Frame(outputVideo[..]))
    {
      calls := calls + [InputPoll];

      var expectedFrames := samplesCount / SamplesPerFrame;
      if framesCount < expectedFrames {
        calls := calls + [VideoRefresh(if canDupe then NullFrame else Frame(outputVideo[..]), Width, Height, Pitch)];
        framesCount := framesCount + 1;
        return 0;
      }

      used := RealFrame(steps);
    }

    /** The real path of retro_run after the poll: the engine loop, the
      last step's audio, the conversion and the one video call. */
    method RealFrame(steps: seq<StepOutcome>) returns (used: nat)
      requires Valid()
      requires forall k :: 0 <= k < |steps| ==> WellFormed(steps[k])
      requires HasFrameEnd(steps)
      modifies this, outputVideo
      ensures Valid() && outputVideo == old(outputVideo)
      ensures canDupe == old(canDupe) && serializeSize == old(serializeSize)
      ensures framesCount == old(framesCount) + 1
      ensures used == FirstFrameEnd(steps) + 1 && WellFormed(steps[used - 1])
      ensures samplesCount == old(samplesCount) + TotalProduced(steps, used)
      ensures outputVideo[..] == ConvertedFrame(old(outputVideo[..]), steps[used - 1].video)
      ensures calls == old(calls) + StepCalls(steps, used)
                       + [VideoRefresh(Frame(outputVideo[..]), Width, Height, Pitch)]
    {
      ghost var calls0 := calls;
      var videoBuf := new Argb8888[FrameLen];
      var samples: nat;
      used, samples := RunEngine(steps, videoBuf);
      samplesCount := samplesCount + samples;
      OutputAudio(samples, steps[used - 1].resampled);

      ConvertFrame(outputVideo, videoBuf);
      var video := VideoRefresh(Frame(outputVideo[..]), Width, Height, Pitch);
      calls := calls + [video];
      StepCallsClose(calls0, steps, used - 1, video);
      framesCount := framesCount + 1;
    }

    /** The while loop of retro_run: `samples` starts at the full capacity
      and is reset to it before every further step; each step that does not
      complete the frame has its audio passed on and counted. On exit the
      completing step's audio is still to be passed on and counted. */
    method RunEngine(steps: seq<StepOutcome>, videoBuf: array<Argb8888>) returns (used: nat, samples: nat)
      requires forall k :: 0 <= k < |steps| ==> WellFormed(steps[k])
      requires HasFrameEnd(steps) && videoBuf.Length == FrameLen
      modifies this`calls, this`samplesCount, videoBuf
      ensures used == FirstFrameEnd(steps) + 1 && WellFormed(steps[used - 1])
      ensures samples == steps[used - 1].produced && videoBuf[..] == steps[used - 1].video
      ensures samplesCount == old(samplesCount) + TotalProduced(steps, used - 1)
      ensures calls == old(calls) + StepCalls(steps, used - 1) + [RunFor(StepCapacity)]
    {
      ghost var last := FirstFrameEnd(steps);
      ghost var calls0, samples0 := calls, samplesCount;
      samples := StepCapacity;
      var done;
      done, samples := EngineRunFor(steps[0], samples, videoBuf);
      used := 1;
      while !done
        invariant 1 <= used <= last + 1 <= |steps|
        invariant done == steps[used - 1].frameDone && samples == steps[used - 1].produced
        invariant videoBuf[..] == steps[used - 1].video
        invariant samplesCount == samples0 + TotalProduced(steps, used - 1)
        invariant calls == calls0 + StepCalls(steps, used - 1) + [RunFor(StepCapacity)]
        decreases last + 1 - used
      {
        StepCallsExtend(calls0, steps, used - 1);
        done, samples := NextStep(steps[used - 1], samples, steps[used], videoBuf);
        used := used + 1;
      }
    }

    /** One iteration of the while loop of retro_run: the audio of the step
      that did not complete the frame is passed on and counted, `samples` is
      reset to the full capacity and the engine runs again. */
    method NextStep(prev: StepOutcome, samples: nat, next: StepOutcome, videoBuf: array<Argb8888>)
      returns (frameDone: bool, produced: nat)
      requires samples == prev.produced && WellFormed(next) && videoBuf.Length == FrameLen
      modifies this`calls, this`samplesCount, videoBuf
      ensures samplesCount == old(samplesCount) + prev.produced
      ensures calls == old(calls) + AudioCalls(prev.produced, prev.resampled) + [RunFor(StepCapacity)]
      ensures videoBuf[..] == next.video
      ensures frameDone == next.frameDone && produced == next.produced
    {
      OutputAudio(samples, prev.resampled);
      samplesCount := samplesCount + samples;
      var capacity := StepCapacity;
      frameDone, produced := EngineRunFor(next, capacity, videoBuf);
    }

    /** retro_serialize_size: the engine's state size, asked afresh. */
    method SerializeSize(engineSize: nat) returns (size: nat)
      modifies this`calls
      ensures size == engineSize && calls == old(calls) + [StateSize]
    {
      calls := calls + [StateSize];
      size := engineSize;
    }

    /** The guard shared by retro_serialize and retro_unserialize: fill the
      cache if it is empty, then compare the host's size against it. */
    method CheckSize(size: nat, engineSize: nat) returns (ok: bool)
      modifies this`serializeSize, this`calls
      ensures serializeSize == CachedSize(old(serializeSize), engineSize)
      ensures calls == old(calls) + (if old(serializeSize) == 0 then [StateSize] else [])
      ensures ok <==> size == serializeSize
    {
      if serializeSize == 0 {
        serializeSize := SerializeSize(engineSize);
      }
      ok := size == serializeSize;
    }

    /** retro_serialize: a buffer of the wrong size is refused before the
      engine is touched; otherwise the engine saves its state once. */
    method Serialize(size: nat, engineSize: nat) returns (ok: bool)
      modifies this`serializeSize, this`calls
      ensures serializeSize == CachedSize(old(serializeSize), engineSize)
      ensures ok <==> size == serializeSize
      ensures calls == old(calls) + (if old(serializeSize) == 0 then [StateSize] else [])
                                  + (if ok then [SaveState] else [])
    {
      ok := CheckSize(size, engineSize);
      if !ok {
        return false;
      }
      calls := calls + [SaveState];
      return true;
    }

    /** retro_unserialize: the same guard, then the engine loads its state
      once. */
    method Unserialize(size: nat, engineSize: nat) returns (ok: bool)
      modifies this`serializeSize, this`calls
      ensures serializeSize == CachedSize(old(serializeSize), engineSize)
      ensures ok <==> size == serializeSize
      ensures calls == old(calls) + (if old(serializeSize) == 0 then [StateSize] else [])
                                  + (if ok then [LoadState] else [])
    {
      ok := CheckSize(size, engineSize);
      if !ok {
        return false;
      }
      calls := calls + [LoadState];
      return true;
    }
  }
}
