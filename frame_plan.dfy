/** The video frame plan of WaveformVideoGenerator.generateVideo: how many
    frames the video has and which samples of channel 0 each frame draws.
    The audio duration is `len / sampleRate` seconds, so the frame count
    `ceil(duration * fps)` is computed here in exact integer arithmetic. */
module FramePlan {
  import opened SampleRanges
  import opened Arith

  /** The least frame count whose running time, at `fps` frames per second,
      is at least the audio's duration `len / sampleRate`. */
  function TotalFrames(len: nat, sampleRate: nat, fps: nat): (r: nat)
    requires sampleRate > 0
    ensures r * sampleRate >= len * fps
    ensures r > 0 ==> (r - 1) * sampleRate < len * fps
    ensures r == 0 <==> len * fps == 0
  {
    (len * fps + sampleRate - 1) / sampleRate
  }

  /** Floor division of the channel length by the frame count; with no frame
      at all the value is never used and is 0. */
  function SamplesPerFrame(len: nat, totalFrames: nat): (r: nat)
    ensures totalFrames > 0 ==> r * totalFrames <= len < (r + 1) * totalFrames
    ensures totalFrames == 0 ==> r == 0
  {
    if totalFrames == 0 then 0 else len / totalFrames
  }

  /** The sample range drawn for one frame, clamped to the channel. */
  function FrameRange(frame: nat, samplesPerFrame: nat, len: nat): (r: Range)
    ensures r.start == frame * samplesPerFrame
    ensures r.end <= len && r.end <= r.start + samplesPerFrame
    ensures r.end == r.start + samplesPerFrame || r.end == len
  {
    var startSample := frame * samplesPerFrame;
    Range(startSample, if startSample + samplesPerFrame < len then startSample + samplesPerFrame else len)
  }

  /** The whole plan: one range per frame, in frame order. */
  function Frames(len: nat, sampleRate: nat, fps: nat): (r: seq<Range>)
    requires sampleRate > 0
    ensures |r| == TotalFrames(len, sampleRate, fps)
  {
    var total := TotalFrames(len, sampleRate, fps);
    var spf := SamplesPerFrame(len, total);
    seq(total, (f: int) requires 0 <= f < total => FrameRange(f, spf, len))
  }

  /** Inside the plan the clamp never bites: a frame's end is always within the channel. */
  lemma {:induction false} FrameEndWithinChannel(len: nat, total: nat, frame: nat)
    requires frame < total
    ensures frame * SamplesPerFrame(len, total) + SamplesPerFrame(len, total) <= len
  {
    var spf := SamplesPerFrame(len, total);
    calc {
      frame * spf + spf;
      == (frame + 1) * spf;
      <= { MulMonotone(frame + 1, total, spf); }
      total * spf;
      <= len;
    }
  }

  /** Frame f is [f * spf, f * spf + spf): every frame has exactly
      samplesPerFrame samples and lies within [0, len). */
  lemma {:induction false} FrameShape(len: nat, sampleRate: nat, fps: nat, frame: nat)
    requires sampleRate > 0 && frame < TotalFrames(len, sampleRate, fps)
    ensures var spf := SamplesPerFrame(len, TotalFrames(len, sampleRate, fps));
      && Frames(len, sampleRate, fps)[frame] == Range(frame * spf, frame * spf + spf)
      && Frames(len, sampleRate, fps)[frame].Length() == spf
      && Frames(len, sampleRate, fps)[frame].end <= len
  {
    FrameEndWithinChannel(len, TotalFrames(len, sampleRate, fps), frame);
  }

  /** Consecutive frames meet exactly: frame f ends where frame f + 1 starts. */
  lemma {:induction false} FramesMeet(len: nat, sampleRate: nat, fps: nat, f: nat)
    requires sampleRate > 0 && f + 1 < TotalFrames(len, sampleRate, fps)
    ensures Frames(len, sampleRate, fps)[f].end == Frames(len, sampleRate, fps)[f + 1].start
  {
    var spf := SamplesPerFrame(len, TotalFrames(len, sampleRate, fps));
    FrameShape(len, sampleRate, fps, f);
    FrameShape(len, sampleRate, fps, f + 1);
    MulSucc(f, spf);
  }

  /** The frames form one chain from sample 0 to totalFrames * samplesPerFrame,
      inside the channel; consecutive frames meet exactly. */
  lemma {:induction false} FramesChain(len: nat, sampleRate: nat, fps: nat)
    requires sampleRate > 0
    ensures var total := TotalFrames(len, sampleRate, fps);
      && Adjacent(Frames(len, sampleRate, fps), 0)
      && Reach(Frames(len, sampleRate, fps), 0) == total * SamplesPerFrame(len, total)
      && WithinLimit(Frames(len, sampleRate, fps), len)
  {
    var total := TotalFrames(len, sampleRate, fps);
    var spf := SamplesPerFrame(len, total);
    var rs := Frames(len, sampleRate, fps);
    forall f | 0 <= f < total ensures rs[f].start <= rs[f].end <= len {
      FrameShape(len, sampleRate, fps, f);
    }
    forall f | 0 <= f && f + 1 < total ensures rs[f].end == rs[f + 1].start {
      FramesMeet(len, sampleRate, fps, f);
    }
    if total > 0 {
      FrameShape(len, sampleRate, fps, 0);
      FrameShape(len, sampleRate, fps, total - 1);
      MulSucc(total - 1, spf);
    }
  }

  /** Frames never overlap: an earlier frame ends at or before a later one starts. */
  lemma {:induction false} FramesDisjoint(len: nat, sampleRate: nat, fps: nat, f: nat, g: nat)
    requires sampleRate > 0 && f < g < TotalFrames(len, sampleRate, fps)
    ensures Frames(len, sampleRate, fps)[f].end <= Frames(len, sampleRate, fps)[g].start
  {
    FramesChain(len, sampleRate, fps);
    AdjacentOrdered(Frames(len, sampleRate, fps), 0, f, g);
  }

  /** A sample belongs to some frame exactly when it is below
      totalFrames * samplesPerFrame: the trailing remainder is drawn by no frame. */
  lemma {:induction false} FramesCoverage(len: nat, sampleRate: nat, fps: nat, x: nat)
    requires sampleRate > 0
    ensures var total := TotalFrames(len, sampleRate, fps);
      Covers(Frames(len, sampleRate, fps), x) <==> x < total * SamplesPerFrame(len, total)
  {
    FramesChain(len, sampleRate, fps);
    AdjacentCoverage(Frames(len, sampleRate, fps), 0, x);
  }

  /** The samples left over by the floor division: exactly len % totalFrames,
      fewer than one per frame, or the whole channel when there are no frames. */
  lemma {:induction false} DroppedRemainder(len: nat, sampleRate: nat, fps: nat)
    requires sampleRate > 0
    ensures var total := TotalFrames(len, sampleRate, fps);
      var covered := total * SamplesPerFrame(len, total);
      && covered <= len
      && (total > 0 ==> len - covered < total)
      && (total > 0 ==> len - covered == len % total)
      && (total == 0 ==> covered == 0)
  {
    var total := TotalFrames(len, sampleRate, fps);
    var spf := SamplesPerFrame(len, total);
    if total > 0 {
      assert spf * total <= len < (spf + 1) * total;
      assert (spf + 1) * total == spf * total + total;
    }
  }

  /** More frames than samples: samplesPerFrame is 0 and every frame is the
      empty range at sample 0. */
  lemma {:induction false} OversampledFramesEmpty(len: nat, sampleRate: nat, fps: nat, frame: nat)
    requires sampleRate > 0
    requires TotalFrames(len, sampleRate, fps) > len
    requires frame < TotalFrames(len, sampleRate, fps)
    ensures SamplesPerFrame(len, TotalFrames(len, sampleRate, fps)) == 0
    ensures Frames(len, sampleRate, fps)[frame] == Range(0, 0)
  {
    var total := TotalFrames(len, sampleRate, fps);
    var spf := SamplesPerFrame(len, total);
    if spf > 0 {
      MulMonotone(1, spf, total);
      assert false;
    }
  }

  /** One second of 48 kHz audio at 30 frames per second: 30 frames of 1600 samples. */
  lemma OneSecondAtThirtyFps()
    ensures TotalFrames(48000, 48000, 30) == 30
    ensures SamplesPerFrame(48000, 30) == 1600
  {
  }
}
