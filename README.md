# WaveformVideoGenerator in Dafny

This project models the computational core of `WaveformVideoGenerator` (`app.js`).
This browser tool turns an audio file into a WebM video of its waveform, with the audio track attached. Its central method is `generateVideo`, and the model covers it:

- **Frame plan**: how many video frames the audio's duration needs at the chosen frame rate, and which samples of channel 0 each frame draws (`FramePlan`, over the range chains of `SampleRanges`).
- **Chunk plan**: how the decoded buffer is cut into 960-sample audio chunks, the last one clamped (`ChunkPlan`).
- **Per-unit rules**: the keyframe request every 150 frames, and the microsecond timestamps of video frames and audio chunks, held as exact rationals (`Timing`).
- **Interleaving**: `interleaveChannels`, which copies planar channel data into a fresh buffer in sample-major, channel-minor order. It is modelled as an imperative method over an `array`, proved against the `Interleave` function, and that function is proved to be inverted by `Deinterleave` (`Interleaving`).
- **AudioData units**: the unit built for each chunk, and how a consumer reads its payload back under the declared sample format (`AudioFrames`). The declared format is a parameter of the audio run. The source declares `'f32-planar'` (`F32Planar`) for an interleaved payload; `'f32'` (`F32`) is the declaration that matches it (see Findings).
- **Progress schedule**: the values passed to `updateProgress` during one run (`Progress`).
- **The two encoding loops and the whole run** (`Generator`). The video and audio encoders are sinks that record what is submitted to them. The progress bar is the log of the values reported.

Sample values are opaque: every definition that carries samples is generic in the sample type `T`. The audio buffer has `len` samples per channel at `sampleRate`, so its duration is `len / sampleRate` seconds; the frame count `ceil(duration * fps)` is computed exactly in integer arithmetic.

## Model

| member | source | states |
|---|---|---|
| FramePlan.TotalFrames | app.js:109-110 | the frame count is the least `r` with `r * sampleRate >= len * fps`, i.e. `ceil(duration * fps)`; it is 0 exactly when the audio is empty or fps is 0 |
| FramePlan.SamplesPerFrame | app.js:111 | with at least one frame, the floor of `len / totalFrames`: `r * totalFrames <= len < (r + 1) * totalFrames` |
| FramePlan.FrameRange | app.js:164-165 | frame f's range starts at `f * samplesPerFrame` and ends at `start + samplesPerFrame` or at the channel's end, whichever comes first (the `Math.min` clamp) |
| FramePlan.Frames | app.js:163-166 | the plan holds one range per frame of the loop, `totalFrames` of them |
| FramePlan.FrameEndWithinChannel | app.js:164-165 | for every planned frame, `start + samplesPerFrame` never passes the channel's end, so the `Math.min` clamp never bites |
| FramePlan.FrameShape | app.js:164-166 | frame f draws exactly `[f * spf, f * spf + spf)`, which is `samplesPerFrame` samples, all inside the channel |
| FramePlan.FramesChain | app.js:163-166 | the frames form one gapless chain from sample 0 to `totalFrames * samplesPerFrame`, inside the channel |
| FramePlan.FramesDisjoint | app.js:163-166 | an earlier frame ends at or before any later frame starts: no sample is drawn twice |
| FramePlan.FramesCoverage | app.js:163-166 | a sample is drawn by some frame if and only if it lies below `totalFrames * samplesPerFrame` |
| FramePlan.DroppedRemainder | app.js:111 | the samples no frame draws are exactly `len % totalFrames`, fewer than `totalFrames`, or the whole channel when there are no frames |
| FramePlan.OversampledFramesEmpty | app.js:111 | with more frames than samples, `samplesPerFrame` is 0 and every frame is the empty range at 0 |
| FramePlan.OneSecondAtThirtyFps | app.js:110-111 | one second of 48 kHz audio at 30 fps gives 30 frames of 1600 samples |
| ChunkPlan.TotalAudioFrames | app.js:192-193 | the chunk count is `ceil(len / 960)`: the least count whose chunks hold the buffer; it is 0 exactly when the buffer is empty |
| ChunkPlan.ChunkRange | app.js:196-198 | chunk i's range starts at `i * 960` and ends at `start + 960` or at the buffer's end, whichever comes first (the `Math.min` clamp) |
| ChunkPlan.Chunks | app.js:195-198 | the plan holds one range per chunk of the loop, `ceil(len / 960)` of them |
| ChunkPlan.ChunkLengths | app.js:195-198 | chunk i starts at `i * 960`; every chunk but the last holds 960 samples, and the last holds 1 to 960 |
| ChunkPlan.ChunksChain | app.js:195-198 | the chunks form one gapless chain from sample 0 to the end of the buffer |
| ChunkPlan.ChunksDisjoint | app.js:195-198 | chunks never overlap |
| ChunkPlan.ChunksCoverage | app.js:195-198 | a sample is in some chunk if and only if it is in the buffer |
| ChunkPlan.ChunkOfSample | app.js:196-197 | sample x lies in chunk `x / 960` |
| SampleRanges.AdjacentWithin | app.js:163-166 | shared by the frame plan (app.js:163-166) and the chunk plan (app.js:195-198): every range of a chain lies between the chain's origin and its reach |
| SampleRanges.AdjacentOrdered | app.js:195-198 | shared by the frame plan (app.js:163-166) and the chunk plan (app.js:195-198): in a chain, an earlier range ends at or before a later range starts |
| SampleRanges.AdjacentCoverage | app.js:195-198 | shared by the frame plan (app.js:163-166) and the chunk plan (app.js:195-198): a chain covers a sample if and only if the sample lies between its origin and its reach |
| SampleRanges.FlattenSlices | app.js:200-202 | shared by the frame slices (app.js:166) and the chunk slices (app.js:200-202): concatenating the slices of a chain from 0 gives back the prefix of the data up to the chain's reach |
| Timing.IsKeyFrame | app.js:174 | a keyframe is requested exactly when the frame index is a whole multiple of 150 |
| Timing.KeyFrameIffMultiple | app.js:174 | frame f is requested as a keyframe if and only if f is a multiple of 150 |
| Timing.KeyFrameCountClosedForm | app.js:174 | a video of n frames requests exactly `ceil(n / 150)` keyframes |
| Timing.VideoTimestamp | app.js:171 | the timestamp t satisfies `t * fps == frame * 1000000` exactly, and is non-negative |
| Timing.VideoTimestampStart | app.js:171 | the first frame is at time 0 |
| Timing.VideoTimestampsIncrease | app.js:171 | video timestamps strictly increase with the frame index |
| Timing.VideoTimestampPeriod | app.js:171 | every `fps` frames the video advances exactly one second |
| Timing.AudioTimestamp | app.js:209 | the timestamp t satisfies `t * sampleRate == start * 1000000` exactly, and is non-negative |
| Timing.AudioTimestampsMonotone | app.js:209 | audio timestamps never decrease with the start sample, and strictly increase when the start does |
| Timing.AudioTimestampGapless | app.js:209 | a chunk's timestamp plus its duration is exactly the next chunk's timestamp |
| Interleaving.InterleaveAt | app.js:254-257 | sample i of channel ch lands at index `i * channels + ch` of the interleaved layout |
| Interleaving.InterleaveIndex | app.js:254-257 | index k of the layout holds sample `k / channels` of channel `k % channels` |
| Interleaving.Interleave | app.js:250-261 | the interleaved layout holds `channelData[0].length * channels` samples |
| Interleaving.DeinterleaveInterleave | app.js:250-261 | de-interleaving the interleaved layout gives back the channels |
| Interleaving.InterleaveDeinterleave | app.js:250-261 | interleaving the channels read from a whole number of sample frames gives back the buffer |
| Interleaving.InterleaveChannels | app.js:250-261 | the loop returns a fresh buffer of `channelData[0].length * channels` samples equal to the interleaved layout |
| AudioFrames.ReadChannels | app.js:204-211 | a consumer reads one channel per declared channel, each `numberOfFrames` long |
| AudioFrames.MakeAudioFrame | app.js:204-211 | the unit carries the declared format, one frame per sample of the chunk, one channel per channel, the chunk's start as its timestamp, and a payload of one sample per frame and channel |
| AudioFrames.StereoScrambledAsWritten | app.js:204-211 | as written, stereo [1, 2] / [3, 4] is read back as [1, 3] / [2, 4] |
| AudioFrames.MonoIntactAsWritten | app.js:204-211 | as written, a single channel is still read back intact |
| AudioFrames.DecodeMakeAudioFrame | app.js:204-211 | with the corrected `'f32'` declaration, matching the interleaved payload, every channel of the chunk is read back intact |
| AudioFrames.DecodeWhenLayoutAgrees | app.js:204-211 | whenever the declaration agrees with the interleaved payload (`'f32'`, or a single channel under the source's `'f32-planar'`), the chunk is read back intact |
| Progress.VideoFrameProgress | app.js:177 | after frame f, progress lies in (5, 75], and equals 75 exactly after the last frame |
| Progress.AudioChunkProgress | app.js:217 | after chunk i, progress lies in (80, 95], and equals 95 exactly after the last chunk |
| Progress.VideoProgressIncreases | app.js:177 | video progress strictly increases from frame to frame |
| Progress.AudioProgressIncreases | app.js:217 | audio progress strictly increases from chunk to chunk |
| Progress.VideoProgressLog | app.js:177 | the video loop reports exactly one value per frame, `totalFrames` of them |
| Progress.AudioProgressLog | app.js:216-218 | chunks 0 .. n - 1 report `ceil(n / 100)` values, each in (80, 95] |
| Progress.ProgressSchedule | app.js:106-239 | one run reports `totalFrames + ceil(totalChunks / 100) + 5` values, starting 0, 5 and ending 95, 100 |
| Progress.AudioProgressLogClosedForm | app.js:216-218 | the audio loop reports `ceil(totalChunks / 100)` times, the r-th report being the progress of chunk `100 * r` |
| Progress.VideoPhase | app.js:163-178 | the video phase never decreases, stays in [5, 75] and ends at 75 |
| Progress.AudioPhase | app.js:195-221 | the audio phase never decreases, stays in (80, 95] and has `ceil(totalChunks / 100)` reports |
| Progress.ScheduleMonotoneAndBounded | app.js:106-239 | over one run, progress starts at 0, never decreases, stays in [0, 100] and ends at 100 |
| Generator.EncodeVideoFrames | app.js:163-183 | the frame loop submits exactly the planned frames and reports exactly the per-frame progress values |
| Generator.VideoSubmissions | app.js:163-174 | the video encoder receives one submission per planned frame, `totalFrames` of them |
| Generator.ChannelSlices | app.js:200-202 | slicing every channel over one range keeps the channel count, and gives channels of equal length, the range's length |
| Generator.AudioSubmissions | app.js:195-211 | one unit per planned chunk, each well sized, carrying the declared format and every channel of the buffer |
| Generator.EncodeAudioChunks | app.js:187-221 | the chunk loop submits one unit per planned chunk, its payload interleaved and declared with the given format (the source's `'f32-planar'` or the corrected `'f32'`), and reports progress on every 100th chunk |
| Generator.GenerateVideo | app.js:106-239 | one run submits the planned video frames and audio chunks (declared with the given format), and reports 0, 5, the video phase, 80, the audio phase, 95 and 100 in that order |
| Generator.VideoStreamOrdered | app.js:163-174 | video timestamps start at 0 and strictly increase; keyframes are requested exactly on multiples of 150 |
| Generator.VideoKeyFrameCount | app.js:174 | a run of `totalFrames` frames submits exactly `ceil(totalFrames / 150)` keyframe requests |
| Generator.VideoStreamSamples | app.js:163-168 | each frame draws `samplesPerFrame` samples, and all frames together draw exactly the first `totalFrames * samplesPerFrame` samples of channel 0, in order |
| Generator.AudioStreamOrdered | app.js:204-211 | audio timestamps start at 0 and never decrease |
| Generator.AudioStreamGapless | app.js:195-211 | every audio unit but the last carries 960 sample frames and the last 1 to 960; each starts where the previous one ends in time |
| Generator.AudioStreamReproducesChannels | app.js:187-211 | when the units carry the corrected `'f32'` format, or the audio is mono, reading them back in order reproduces every channel of the buffer exactly |
| Generator.StereoRunScrambledAsWritten | app.js:204-211 | as written, a whole stereo run with left [1, 2] and right [3, 4] is read back as [1, 3] and [2, 4] |

## Left out

- The DOM and UI are not part of this model: file input, buttons, colour and size selectors, canvas sizing, the download link, and the progress messages (only the numeric values are modelled).
- `loadAudioFile` and `decodeAudioData` are not part of this model. The model starts from the decoded channels, assumed to share one length and to number at least one channel, as an AudioBuffer guarantees.
- The `VideoEncoder` feature test, the muxer and encoder configuration (codecs, bitrates, sizes), the encoders' internals, `flush`, `close`, `finalize` and the Blob/URL creation are left out. They are calls into browser and library code; the encoders are modelled as sinks that record what they receive.
- `drawWaveform` is left out. Rendering pixels on a canvas is not modelled beyond the samples each frame is drawn from.
- The `setTimeout` yields every 10 frames and every 100 chunks are left out. They only give control back to the browser and change no values.
- The `catch` block and the encoders' `error` callbacks are left out. Any exception inside the `try` ends the run early: for instance an `encode()` throws once an encoder error has closed that encoder. Then the remaining frames and chunks are not submitted, the progress values reported are a prefix of the full schedule, and 100 is never reported; the model describes only runs that reach the end.
- Floating point is left out. Durations, timestamps and progress are exact rationals, and the frame count is computed as `ceil(len * fps / sampleRate)` in integers. The source's `duration * fps` in doubles, and WebCodecs' truncation of timestamps toward zero to integer microseconds, are not modelled.
- FramePlan.SamplesPerFrame: with no frames JavaScript divides by zero. Empty audio gives `0 / 0`, which is NaN; fps 0 with non-empty audio gives `len / 0`, which is Infinity. The model returns 0. The value is never used, because the frame loop then runs zero times.
- The trailing samples are dropped: the waveform frames never draw the last `len % totalFrames` samples (FramePlan.DroppedRemainder, FramePlan.FramesCoverage).
- Empty audio: no frame and no chunk is produced, and progress runs 0, 5, 80, 95, 100.
- Interleaving.InterleaveChannels requires at least one channel and every channel at least as long as channel 0. In the source, zero channels make `channelData[0].length` throw a TypeError, and reading past a shorter channel yields `undefined`, which the Float32Array stores as NaN. The only call site (app.js:210) always meets the requirement, since it passes equally long slices of the AudioBuffer's channels.
- Generator.AudioStreamReproducesChannels promises the read-back only when the units carry `'f32'` or the audio is mono. Under the source's `'f32-planar'`, stereo and wider audio is scrambled (Generator.StereoRunScrambledAsWritten).

## Findings

| source | as written | input that shows it | evidently intended | confidence | as-written member | corrected member |
|---|---|---|---|---|---|---|
| app.js:204-211 | each AudioData is declared `format: 'f32-planar'`, but its `data` is the output of `interleaveChannels`; a consumer that honours the declared format reads each channel as a contiguous plane, which scrambles the samples of multi-channel audio | a stereo chunk with left [1, 2] and right [3, 4] has payload [1, 3, 2, 4]; read as planar it gives left [1, 3] and right [2, 4] | declare `format: 'f32'` (interleaved), so every channel of the chunk is read back intact; mono audio is unaffected either way (AudioFrames.MonoIntactAsWritten); the whole run as written is scrambled too (Generator.StereoRunScrambledAsWritten) | not executed | AudioFrames.StereoScrambledAsWritten | AudioFrames.DecodeMakeAudioFrame |
