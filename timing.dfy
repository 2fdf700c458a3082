/** Per-unit rules of WaveformVideoGenerator.generateVideo: the keyframe
    request, and the presentation timestamps (in microseconds) of video
    frames and audio chunks, as exact rationals. */
module Timing {

  /** A keyframe is requested once every this many video frames. */
  const KeyFrameInterval: nat := 150

  const MicrosPerSecond: nat := 1000000

  /** Whether the encoder is asked to make frame `frame` a keyframe. */
  predicate IsKeyFrame(frame: nat): (b: bool)
    ensures b <==> frame == KeyFrameInterval * (frame / KeyFrameInterval)
  {
    frame % KeyFrameInterval == 0
  }

  /** Keyframes are exactly the frames 0, 150, 300, ... */
  lemma {:induction false} KeyFrameIffMultiple(frame: nat)
    ensures IsKeyFrame(frame) <==> exists k: nat :: frame == KeyFrameInterval * k
  {
    if IsKeyFrame(frame) {
      assert frame == KeyFrameInterval * (frame / KeyFrameInterval);
    }
  }

  /** The number of keyframes among frames 0 .. n - 1. */
  function KeyFrameCount(n: nat): nat {
    if n == 0 then 0 else KeyFrameCount(n - 1) + (if IsKeyFrame(n - 1) then 1 else 0)
  }

  /** A video of n frames carries ceil(n / 150) keyframes. */
  lemma {:induction false} KeyFrameCountClosedForm(n: nat)
    ensures KeyFrameCount(n) == (n + KeyFrameInterval - 1) / KeyFrameInterval
  {
    if n > 0 {
      KeyFrameCountClosedForm(n - 1);
    }
  }

  /** The timestamp given to video frame `frame`: frame * 10^6 / fps. */
  function VideoTimestamp(frame: nat, fps: nat): (t: real)
    requires fps > 0
    ensures t >= 0.0
    ensures t * fps as real == (frame * MicrosPerSecond) as real
  {
    (frame * MicrosPerSecond) as real / fps as real
  }

  /** The first video frame is at time 0. */
  lemma VideoTimestampStart(fps: nat)
    requires fps > 0
    ensures VideoTimestamp(0, fps) == 0.0
  {
  }

  /** Video timestamps strictly increase with the frame index. */
  lemma {:induction false} VideoTimestampsIncrease(f: nat, g: nat, fps: nat)
    requires fps > 0 && f < g
    ensures VideoTimestamp(f, fps) < VideoTimestamp(g, fps)
  {
    var tf, tg := VideoTimestamp(f, fps), VideoTimestamp(g, fps);
    assert (tg - tf) * fps as real == ((g - f) * MicrosPerSecond) as real;
  }

  /** Every fps frames the video advances by exactly one second. */
  lemma {:induction false} VideoTimestampPeriod(frame: nat, fps: nat)
    requires fps > 0
    ensures VideoTimestamp(frame + fps, fps) == VideoTimestamp(frame, fps) + MicrosPerSecond as real
  {
    var t, u := VideoTimestamp(frame, fps), VideoTimestamp(frame + fps, fps);
    var m, r := MicrosPerSecond as real, fps as real;
    assert ((frame + fps) * MicrosPerSecond) as real == (frame * MicrosPerSecond) as real + r * m;
    assert (u - t - m) * r == u * r - t * r - m * r;
    NonZeroFactor(u - t - m, r);
  }

  lemma NonZeroFactor(x: real, y: real)
    requires x * y == 0.0 && y != 0.0
    ensures x == 0.0
  {
  }

  /** The timestamp of an audio chunk that starts at sample `start`:
      start / sampleRate * 10^6. */
  function AudioTimestamp(start: nat, sampleRate: nat): (t: real)
    requires sampleRate > 0
    ensures t >= 0.0
    ensures t * sampleRate as real == (start * MicrosPerSecond) as real
  {
    (start as real / sampleRate as real) * MicrosPerSecond as real
  }

  /** Audio timestamps never decrease, and strictly increase with the start sample. */
  lemma {:induction false} AudioTimestampsMonotone(s: nat, u: nat, sampleRate: nat)
    requires sampleRate > 0 && s <= u
    ensures AudioTimestamp(s, sampleRate) <= AudioTimestamp(u, sampleRate)
    ensures s < u ==> AudioTimestamp(s, sampleRate) < AudioTimestamp(u, sampleRate)
  {
    var ts, tu := AudioTimestamp(s, sampleRate), AudioTimestamp(u, sampleRate);
    assert (tu - ts) * sampleRate as real == ((u - s) * MicrosPerSecond) as real;
  }

  /** A chunk of `length` samples starting at `start` ends, in time, exactly
      where the next chunk's timestamp begins: the audio track has no gap. */
  lemma {:induction false} AudioTimestampGapless(start: nat, length: nat, sampleRate: nat)
    requires sampleRate > 0
    ensures AudioTimestamp(start + length, sampleRate)
         == AudioTimestamp(start, sampleRate) + AudioTimestamp(length, sampleRate)
  {
    var a, b, c := AudioTimestamp(start + length, sampleRate), AudioTimestamp(start, sampleRate), AudioTimestamp(length, sampleRate);
    assert a * sampleRate as real == (b + c) * sampleRate as real;
  }
}
