# Gambatte libretro glue, modelled in Dafny

This project models `libgambatte/libretro/libretro.cpp`, the layer between the
Gambatte Game Boy engine (`gambatte::GB`) and a libretro host (frontend). The
layer has five parts:

- **Frame encoder.** `convert_frame` turns the engine's ARGB8888 frame into the
  host's XRGB1555 frame. Both frames have a stride of 256 pixels, and only the
  visible 160x144 region is converted. The per-pixel mask-and-shift is in
  `pixels.dfy`; the nested loop that writes the output array in place is in
  `frame_encoder.dfy`.
- **Input bridge.** `SNESInput::operator()` and the table `input::btn_map` are
  in `input_bridge.dfy`. The bridge polls once, queries the eight joypad
  buttons in table order and ORs the engine bits of the held buttons. A few
  bit-vector facts it uses are kept in `bits.dfy`.
- **Memory dispatch.** `retro_get_memory_data` and `retro_get_memory_size`
  are in `memory_map.dfy`.
- **State size guard.** `retro_serialize`, `retro_unserialize` and their
  lazily filled `serialize_size` cache are specified on values in
  `state_guard.dfy`. They are implemented as methods of the core class.
- **Run loop.** `retro_run` and `output_audio` are in `core.dfy`. The class
  `Libretro.Core` holds the file's statics: `samples_count`, `frames_count`,
  `output_video`, `can_dupe` and `serialize_size`. It also holds a log of
  every call the glue makes out, to the host or to the engine. The log's
  shape is specified in `trace.dfy`, and the duplicate-frame pacing in
  `pacing.dfy`.

The engine and the resampler are not part of this model, so each engine step
is a parameter. A `StepOutcome` records four things:

- whether `runFor` completed a frame;
- how many audio frames it produced;
- the contents of the video buffer afterwards;
- how many host-rate frames the resampler made of that audio.

The host's answers are parameters too:

- which buttons are held;
- whether it accepts null frames;
- the buffer sizes it passes.

The libretro ids come from `libretro.h`, which is not part of this model. The
model uses the values the published libretro API assigns:

- joypad: B = 0, SELECT = 2, START = 3, UP = 4, DOWN = 5, LEFT = 6, RIGHT = 7, A = 8;
- `RETRO_DEVICE_JOYPAD` = 1;
- `RETRO_MEMORY_SAVE_RAM` = 0 and `RETRO_MEMORY_RTC` = 1.

The engine's button bits (`gambatte::InputGetter`) come from a header that is
not part of this model, so they are a parameter (`EngineButtons`).

## Model

| member | source | states |
|---|---|---|
| Pixels.ConvertPixel | libgambatte/libretro/libretro.cpp:184-189 | The converted pixel has bit 15 clear, and each 5-bit field equals the matching 8-bit channel shifted right by 3. |
| Pixels.ConvertPixelDividesChannels | libgambatte/libretro/libretro.cpp:185-187 | Read as numbers, each host field is the engine channel divided by 8, rounded down. |
| Pixels.FieldsDetermine | libgambatte/libretro/libretro.cpp:185-189 | A host pixel with bit 15 clear is fixed by its three fields, so the field equations of ConvertPixel determine it completely. |
| Pixels.AlphaIgnored | libgambatte/libretro/libretro.cpp:185-187 | Bits 24-31 (alpha) of the engine pixel never affect the converted pixel. |
| Pixels.WhiteAndBlack | libgambatte/libretro/libretro.cpp:185-189 | 0x00FFFFFF and 0xFFFFFFFF convert to 0x7FFF, and 0 converts to 0. |
| Pixels.ExpandPixel | libgambatte/libretro/libretro.cpp:185-187 | The inverse widening used as the partner of the conversion: each 5-bit field returns to the top of its 8-bit channel and alpha is 0. |
| Pixels.ConvertExpand | libgambatte/libretro/libretro.cpp:185-189 | Widening and then converting gives back every host pixel whose bit 15 is clear, so the conversion is onto that range. |
| Pixels.ExpandConvert | libgambatte/libretro/libretro.cpp:185-189 | Converting and then widening keeps exactly `c & 0x00F8F8F8`: only alpha and the three low bits of each channel are lost. |
| FrameEncoder.ConvertedFrame | libgambatte/libretro/libretro.cpp:172-192 | The frame after conversion: every visible pixel (y < 144, x < 160) at `y*256+x` is the converted source pixel at the same position, and every other position keeps its old value. |
| FrameEncoder.ConvertedFrameIdempotent | libgambatte/libretro/libretro.cpp:172-192 | Converting the same engine frame twice gives the same frame as converting it once. |
| FrameEncoder.ConvertFrame | libgambatte/libretro/libretro.cpp:172-192 | The nested row and column loop leaves the output array equal to ConvertedFrame of its old contents and the input. |
| InputBridge.BtnMap | libgambatte/libretro/libretro.cpp:19-28 | The eight (host id, engine bit) entries in table order: A, B, SELECT, START, RIGHT, LEFT, UP, DOWN. No host button appears twice, and none outside those eight (X, Y, L, R) is ever queried. |
| InputBridge.GetInput | libgambatte/libretro/libretro.cpp:31-42 | The calls are one poll followed by the eight port-0 joypad queries in btn_map order. The result is the OR fold of the engine bits of the held entries. |
| InputBridge.PressedBitsExactly | libgambatte/libretro/libretro.cpp:19-40 | Bit k of the result is set exactly when some held table entry's engine bit has bit k set (both directions). |
| InputBridge.NothingHeld | libgambatte/libretro/libretro.cpp:37-40 | With no table button held the result is 0. |
| InputBridge.WithinUnion | libgambatte/libretro/libretro.cpp:19-40 | The result sets no bit outside the union of the table's engine bits. |
| InputBridge.OnlyA | libgambatte/libretro/libretro.cpp:19-40 | Holding only A yields exactly the engine's A bit. |
| InputBridge.PressedBitsSplit | libgambatte/libretro/libretro.cpp:38-39 | The fold over a table is the OR of the folds over any split of it into a prefix and a suffix. |
| MemoryMap.MemoryData | libgambatte/libretro/libretro.cpp:152-160 | Save RAM gives the engine's save-data pointer, RTC gives its RTC pointer, and every other id gives null. |
| MemoryMap.MemorySize | libgambatte/libretro/libretro.cpp:162-170 | Save RAM gives the save-data size, RTC gives the RTC size, and every other id gives 0. |
| MemoryMap.DataAndSizeAgree | libgambatte/libretro/libretro.cpp:152-170 | The two queries for one id always describe the same region: the table entry for a listed id, and null with size 0 for any other id. |
| MemoryMap.NonEmptyOnlyForListedIds | libgambatte/libretro/libretro.cpp:152-170 | A non-null pointer or a non-zero size is reported only for the save-RAM and RTC ids. |
| StateGuard.CachedSize | libgambatte/libretro/libretro.cpp:116-117 | The cache is filled from the engine's state size only while it is 0; a non-zero cache is kept. |
| StateGuard.CacheSticks | libgambatte/libretro/libretro.cpp:114-136 | Once the cache is non-zero it never changes, and every later request is accepted exactly when its buffer has the cached size. |
| StateGuard.FirstSizeWins | libgambatte/libretro/libretro.cpp:114-136 | For any session that starts with requests whose engine size is 0 and then reaches one whose engine size is not 0: the cache ends at that first non-zero size. Every request from it on is accepted exactly when its buffer has that size, whatever the engine reports later. Every earlier request is accepted exactly when its buffer has size 0. |
| StateGuard.CacheAfterAppend | libgambatte/libretro/libretro.cpp:114-136 | The cache and the verdicts of a series split in two are those of the first part, followed by those of the second part started from the cache the first part leaves. |
| StateGuard.NonZeroFirstSticks | libgambatte/libretro/libretro.cpp:114-136 | When the first request already sees a non-zero engine size, that size is cached for good and every request is checked against it. |
| StateGuard.ZeroSizeIsNotCached | libgambatte/libretro/libretro.cpp:114-136 | While the engine reports size 0 the cache stays empty, so stateSize is asked again on each call, and only a buffer of size 0 is accepted. |
| Trace.AudioCalls | libgambatte/libretro/libretro.cpp:194-204 | At most one batch is delivered, exactly when both the produced count and the resampled length are non-zero, and it carries the resampled length. |
| Trace.FirstFrameEnd | libgambatte/libretro/libretro.cpp:230-235 | The step that ends the engine loop is the first one that completes a frame: it completes one, and no earlier step does. |
| Trace.StepCallsCounts | libgambatte/libretro/libretro.cpp:227-238 | n engine steps emit exactly n runFor calls, at most n audio batches and no video call. |
| Trace.AudioFollowsRunFor | libgambatte/libretro/libretro.cpp:230-238 | Every audio batch comes right after a runFor call with capacity 2064, and carries between 1 and 2064 frames. |
| Trace.StepCallsStart | libgambatte/libretro/libretro.cpp:227-230 | The engine runs before any audio is delivered: the first call of the steps is a runFor. |
| Trace.StepCallsPrefix | libgambatte/libretro/libretro.cpp:230-235 | The calls of fewer steps are a prefix of the calls of more steps, so the log only grows. |
| Trace.RepeatCallsCounts | libgambatte/libretro/libretro.cpp:212-219 | A repeated frame makes exactly one video call, no runFor call and no audio batch. |
| Trace.FrameCallsCounts | libgambatte/libretro/libretro.cpp:212-241 | A real frame starts with the poll and ends with its one video call. In between it makes one runFor per step up to the first completing step, and at most one batch per step. |
| Pacing.Dupe | libgambatte/libretro/libretro.cpp:214-215 | The repeat test frames_count < samples_count / 35112. It holds exactly when the audio covers at least one whole frame more than has been shown: 35112 * (frames_count + 1) <= samples_count. |
| Pacing.NextCounters | libgambatte/libretro/libretro.cpp:214-242 | Every call adds 1 to frames_count. A repeat leaves samples_count unchanged; a real call adds the audio its steps produced. |
| Pacing.FirstCallIsReal | libgambatte/libretro/libretro.cpp:208-215 | From the zeroed counters the first call takes the real path. |
| Pacing.DupeCatchesUp | libgambatte/libretro/libretro.cpp:214-219 | After a repeat, frames_count is at most samples_count / 35112. |
| Pacing.WithinOnePreserved | libgambatte/libretro/libretro.cpp:214-242 | If a real call produces at least 35112 frames of audio, frames_count <= samples_count / 35112 + 1 is preserved by every call. |
| Pacing.SessionWithinOne | libgambatte/libretro/libretro.cpp:208-242 | Under the same engine assumption, a whole session from power-on keeps that bound, and every call counts exactly one frame. |
| Pacing.WithinOneNeedsAudio | libgambatte/libretro/libretro.cpp:214-242 | Without that assumption the bound fails: two calls whose engine produces no audio break it. |
| Libretro.Core.constructor | libgambatte/libretro/libretro.cpp:56-89 | The statics start zeroed, can_dupe is the host's answer, and the log is empty. The first call is therefore not a repeat. |
| Libretro.Core.EngineRunFor | libgambatte/libretro/libretro.cpp:230 | One runFor call with the given capacity is logged. The video buffer becomes the step's frame, and the step's completion flag and audio count are returned. |
| Libretro.Core.OutputAudio | libgambatte/libretro/libretro.cpp:194-204 | Exactly the calls of AudioCalls are appended to the log. |
| Libretro.Core.Run | libgambatte/libretro/libretro.cpp:206-243 | Every call counts one frame and moves the counters as NextCounters says. A repeat (frames_count < samples_count / 35112) logs the poll and one video call (null if can_dupe, else the unchanged buffer; 160x144, pitch 512) and leaves samples_count and the buffer unchanged. A real call runs the engine up to the first completing step, adds those steps' audio to samples_count, converts that step's frame into the buffer and logs FrameCalls. |
| Libretro.Core.RealFrame | libgambatte/libretro/libretro.cpp:222-242 | The real path after the poll. The counters, buffer and log end as stated for Run, and one frame is counted. |
| Libretro.Core.RunEngine | libgambatte/libretro/libretro.cpp:227-235 | The while loop. It stops at the first completing step. The buffer and the returned count are that step's. Every earlier step is counted in samples_count and logged as a runFor (capacity 2064) followed by its audio. |
| Libretro.Core.NextStep | libgambatte/libretro/libretro.cpp:230-235 | One loop iteration: the pending audio is delivered and counted, then the engine runs again with `samples` reset to 2064. |
| Libretro.Core.SerializeSize | libgambatte/libretro/libretro.cpp:109-112 | Returns the engine's state size and logs one stateSize call. |
| Libretro.Core.CheckSize | libgambatte/libretro/libretro.cpp:116-120 | The cache becomes CachedSize of its old value, and stateSize is asked only when the cache was 0. The call is accepted exactly when the host's size equals the cache. |
| Libretro.Core.Serialize | libgambatte/libretro/libretro.cpp:114-124 | The guard as above. A mismatched size returns false with no saveState call; otherwise there is exactly one saveState call and the result is true. |
| Libretro.Core.Unserialize | libgambatte/libretro/libretro.cpp:126-136 | The guard as above. A mismatched size returns false with no loadState call; otherwise there is exactly one loadState call and the result is true. |

## Left out

- Timing in `retro_init` (lines 72-84): the fps and sample-rate arithmetic is floating point, and `exactRatio` belongs to the resampler. The `fprintf` is I/O.
- The resampler (`resamplerinfo.h`) is not part of this model. Its answer to each `resample` call is a parameter of each engine step. It is taken to be at most 2064 frames, the size of output_audio's output buffer. The audio content is opaque. The engine's audio count per step is not bounded.
- The engine (`gambatte::GB`) is not part of this model. `runFor` is a parameter of each step. `saveState`, `loadState` and `stateSize` are entries in the call log, and the size is a parameter. The save-RAM and RTC regions are opaque pointers with sizes. `load`, `reset` and `setInputGetter` are not modelled.
- The engine calling the input getter during `runFor` is not modelled. `InputBridge.GetInput` models one such call on its own.
- The contents of the state buffers passed to `retro_serialize` and `retro_unserialize` are not modelled; only their sizes are.
- The `sound_buf` union (lines 222-226) reinterprets 32-bit words as 16-bit samples, which depends on byte order. Audio is counted in stereo frames only.
- Host callbacks are entries in the call log, not real I/O. The callback setters, `retro_get_system_info`, `retro_get_system_av_info`, the cheat stubs, `retro_load_game`, `retro_load_game_special`, `retro_unload_game`, `retro_reset`, `retro_deinit`, `retro_get_region`, `retro_set_controller_port_device` and `retro_api_version` only store a pointer, return a constant or forward to the engine, so they are not modelled.
- `samples_count` and `frames_count` are unbounded naturals, so the 64-bit wrap-around of the `uint64_t` counters is not modelled. `samples_count` grows by 4194304 / 70224 * 35112 = 2^21 frames per second, so it would wrap after 2^43 seconds, about 280,000 years. `frames_count` would take about 9.8 billion years.
- Pacing.SessionWithinOne: the bound frames_count <= samples_count / 35112 + 1 is proved only when each real call produces at least 35112 audio frames. The glue does not enforce this, and Pacing.WithinOneNeedsAudio shows it fails without it.
- `retro_run` runs the engine step by step until a step completes a frame. The model requires that one of the given steps completes a frame, so an engine that never finishes a frame is not modelled.
