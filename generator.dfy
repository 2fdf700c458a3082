/** The frame-by-frame and chunk-by-chunk loops of
    WaveformVideoGenerator.generateVideo, with the two encoders modelled as
    sinks that record what is submitted to them and progress as the log of
    values passed to updateProgress. */
module Generator {
  import opened SampleRanges
  import opened FramePlan
  import opened ChunkPlan
  import opened Timing
  import opened Interleaving
  import opened AudioFrames
  import opened Progress
  import opened Arith

  /** What the video encoder receives for one frame: the samples its image is
      drawn from, its timestamp, and whether a keyframe is requested. */
  datatype VideoSubmission<T> = VideoSubmission(samples: seq<T>, timestamp: real, keyFrame: bool)

  /** Every video submission of one run, in frame order. */
  function VideoSubmissions<T>(channel0: seq<T>, sampleRate: nat, fps: nat): (r: seq<VideoSubmission<T>>)
    requires sampleRate > 0
    ensures |r| == TotalFrames(|channel0|, sampleRate, fps)
  {
    var frames := Frames(|channel0|, sampleRate, fps);
    assert WithinLimit(frames, |channel0|) by { FramesChain(|channel0|, sampleRate, fps); }
    seq(|frames|, (f: int) requires 0 <= f < |frames| =>
      VideoSubmission(channel0[frames[f].start..frames[f].end], VideoTimestamp(f, fps), IsKeyFrame(f)))
  }

  /** The samples of every channel over one range: `channel.slice(start, end)` for each channel. */
  function ChannelSlices<T>(channels: seq<seq<T>>, r: Range): (s: seq<seq<T>>)
    requires EqualLength(channels) && r.start <= r.end <= |channels[0]|
    ensures EqualLength(s) && |s| == |channels| && |s[0]| == r.Length()
  {
    seq(|channels|, (ch: int) requires 0 <= ch < |channels| => channels[ch][r.start..r.end])
  }

  /** Every audio submission of one run, in chunk order, each declared with
      `format` (the source declares F32Planar, app.js:205). */
  function AudioSubmissions<T>(channels: seq<seq<T>>, sampleRate: nat, format: SampleFormat): (r: seq<AudioFrame<T>>)
    requires EqualLength(channels) && sampleRate > 0
    ensures |r| == TotalAudioFrames(|channels[0]|)
    ensures forall i :: 0 <= i < |r| ==>
      WellSized(r[i]) && r[i].format == format && r[i].numberOfChannels == |channels|
  {
    var chunks := Chunks(|channels[0]|);
    assert WithinLimit(chunks, |channels[0]|) by { ChunksChain(|channels[0]|); }
    seq(|chunks|, (i: int) requires 0 <= i < |chunks| =>
      MakeAudioFrame(format, ChannelSlices(channels, chunks[i]), sampleRate, chunks[i].start))
  }

  /** The frame loop: draws each frame's samples of channel 0 and submits
      it to the video encoder; reports progress after every frame. */
  method EncodeVideoFrames<T>(channel0: seq<T>, sampleRate: nat, fps: nat)
    returns (video: seq<VideoSubmission<T>>, progress: seq<real>)
    requires sampleRate > 0
    ensures video == VideoSubmissions(channel0, sampleRate, fps)
    ensures progress == VideoProgressLog(TotalFrames(|channel0|, sampleRate, fps))
  {
    var len := |channel0|;
    var totalFrames := TotalFrames(len, sampleRate, fps);
    var samplesPerFrame := SamplesPerFrame(len, totalFrames);
    ghost var videoSpec := VideoSubmissions(channel0, sampleRate, fps);
    ghost var videoLog := VideoProgressLog(totalFrames);
    video, progress := [], [];
    for frame := 0 to totalFrames
      invariant video == videoSpec[..frame]
      invariant progress == videoLog[..frame]
    {
      var startSample := frame * samplesPerFrame;
      FrameShape(len, sampleRate, fps, frame);
      var endSample := if startSample + samplesPerFrame < len then startSample + samplesPerFrame else len;
      var frameData := channel0[startSample..endSample];
      video := video + [VideoSubmission(frameData, VideoTimestamp(frame, fps), frame % KeyFrameInterval == 0)];
      progress := progress + [VideoFrameProgress(frame, totalFrames)];
    }
    assert videoSpec[..totalFrames] == videoSpec && videoLog[..totalFrames] == videoLog;
  }

  /** The chunk loop: slices every channel over each chunk, interleaves the
      slices and submits them to the audio encoder; reports progress on
      every 100th chunk. Each unit is declared with `format`. */
  method EncodeAudioChunks<T(0)>(channels: seq<seq<T>>, sampleRate: nat, format: SampleFormat)
    returns (audio: seq<AudioFrame<T>>, progress: seq<real>)
    requires EqualLength(channels) && sampleRate > 0
    ensures audio == AudioSubmissions(channels, sampleRate, format)
    ensures progress == AudioProgressLog(TotalAudioFrames(|channels[0]|), TotalAudioFrames(|channels[0]|))
  {
    var len := |channels[0]|;
    var totalAudioFrames := TotalAudioFrames(len);
    ghost var audioSpec := AudioSubmissions(channels, sampleRate, format);
    audio, progress := [], [];
    for i := 0 to totalAudioFrames
      invariant audio == audioSpec[..i]
      invariant progress == AudioProgressLog(i, totalAudioFrames)
    {
      ChunkLengths(len, i);
      var start := i * AudioFrameSize;
      var end := if start + AudioFrameSize < len then start + AudioFrameSize else len;
      var length := end - start;
      var audioFrameData := seq(|channels|, (ch: int) requires 0 <= ch < |channels| => channels[ch][start..end]);
      assert audioFrameData == ChannelSlices(channels, Chunks(len)[i]);
      var data := InterleaveChannels(audioFrameData);
      var unit := AudioFrame(format, sampleRate, length, |channels|, AudioTimestamp(start, sampleRate), data[..]);
      assert unit == MakeAudioFrame(format, audioFrameData, sampleRate, start) == audioSpec[i];
      audio := audio + [unit];
      if i % AudioReportInterval == 0 {
        progress := progress + [AudioChunkProgress(i, totalAudioFrames)];
      }
    }
    assert audioSpec[..totalAudioFrames] == audioSpec;
  }

  /** One run of the generator over decoded audio whose channels all have
      the same length, with every audio unit declared as `format`: the
      source passes F32Planar, and F32 is the corrected declaration. Returns
      what the video and audio encoders were given, and every progress
      value reported, in order. */
  method GenerateVideo<T(0)>(channels: seq<seq<T>>, sampleRate: nat, fps: nat, format: SampleFormat)
    returns (video: seq<VideoSubmission<T>>, audio: seq<AudioFrame<T>>, progress: seq<real>)
    requires EqualLength(channels) && sampleRate > 0
    ensures video == VideoSubmissions(channels[0], sampleRate, fps)
    ensures audio == AudioSubmissions(channels, sampleRate, format)
    ensures progress == ProgressSchedule(TotalFrames(|channels[0]|, sampleRate, fps), TotalAudioFrames(|channels[0]|))
  {
    progress := [0.0];
    progress := progress + [5.0];
    var videoProgress;
    video, videoProgress := EncodeVideoFrames(channels[0], sampleRate, fps);
    progress := progress + videoProgress;
    progress := progress + [80.0];
    var audioProgress;
    audio, audioProgress := EncodeAudioChunks(channels, sampleRate, format);
    progress := progress + audioProgress;
    progress := progress + [95.0];
    progress := progress + [100.0];
  }

  /** The samples drawn by each video submission, in order. */
  function DrawnSamples<T>(v: seq<VideoSubmission<T>>): (r: seq<seq<T>>)
    ensures |r| == |v|
  {
    seq(|v|, (f: int) requires 0 <= f < |v| => v[f].samples)
  }

  /** Channel ch as read back from each audio submission, in order. */
  function ChannelStream<T>(a: seq<AudioFrame<T>>, ch: nat): (r: seq<seq<T>>)
    requires forall i :: 0 <= i < |a| ==> WellSized(a[i]) && ch < a[i].numberOfChannels
    ensures |r| == |a|
  {
    seq(|a|, (i: int) requires 0 <= i < |a| => Decode(a[i])[ch])
  }

  /** Video timestamps start at 0 and strictly increase along the stream;
      keyframes are requested exactly on frames 0, 150, 300, ... */
  lemma {:induction false} VideoStreamOrdered<T>(channel0: seq<T>, sampleRate: nat, fps: nat)
    requires sampleRate > 0
    ensures var v := VideoSubmissions(channel0, sampleRate, fps);
      && (|v| > 0 ==> v[0].timestamp == 0.0)
      && (forall i, j :: 0 <= i < j < |v| ==> v[i].timestamp < v[j].timestamp)
      && (forall i :: 0 <= i < |v| ==> (v[i].keyFrame <==> i % KeyFrameInterval == 0))
  {
    var v := VideoSubmissions(channel0, sampleRate, fps);
    forall i, j | 0 <= i < j < |v| ensures v[i].timestamp < v[j].timestamp {
      VideoTimestampsIncrease(i, j, fps);
    }
  }

  /** Each frame draws exactly samplesPerFrame samples, and the frames drawn
      one after the other are exactly the first totalFrames * samplesPerFrame
      samples of channel 0: each drawn once, in order, the rest never drawn. */
  lemma {:induction false} VideoStreamSamples<T>(channel0: seq<T>, sampleRate: nat, fps: nat)
    requires sampleRate > 0
    ensures var total := TotalFrames(|channel0|, sampleRate, fps);
      var spf := SamplesPerFrame(|channel0|, total);
      var drawn := DrawnSamples(VideoSubmissions(channel0, sampleRate, fps));
      && (forall f :: 0 <= f < |drawn| ==> |drawn[f]| == spf)
      && Flatten(drawn) == channel0[..total * spf]
  {
    var len := |channel0|;
    var total := TotalFrames(len, sampleRate, fps);
    var frames := Frames(len, sampleRate, fps);
    var drawn := DrawnSamples(VideoSubmissions(channel0, sampleRate, fps));
    FramesChain(len, sampleRate, fps);
    FlattenSlices(channel0, frames);
    assert drawn == Slices(channel0, frames);
    forall f | 0 <= f < |drawn| ensures |drawn[f]| == SamplesPerFrame(len, total) {
      FrameShape(len, sampleRate, fps, f);
    }
  }

  /** Audio timestamps start at 0 and never decrease along the stream. */
  lemma {:induction false} AudioStreamOrdered<T>(channels: seq<seq<T>>, sampleRate: nat, format: SampleFormat)
    requires EqualLength(channels) && sampleRate > 0
    ensures var a := AudioSubmissions(channels, sampleRate, format);
      && (|a| > 0 ==> a[0].timestamp == 0.0)
      && (forall i, j :: 0 <= i <= j < |a| ==> a[i].timestamp <= a[j].timestamp)
  {
    var a := AudioSubmissions(channels, sampleRate, format);
    forall i, j | 0 <= i <= j < |a| ensures a[i].timestamp <= a[j].timestamp {
      MulMonotone(i, j, AudioFrameSize);
      AudioTimestampsMonotone(i * AudioFrameSize, j * AudioFrameSize, sampleRate);
    }
  }

  /** Every audio submission but the last carries 960 sample frames and the
      last between 1 and 960; each starts, in time, exactly where the
      previous one ends. */
  lemma {:induction false} AudioStreamGapless<T>(channels: seq<seq<T>>, sampleRate: nat, format: SampleFormat)
    requires EqualLength(channels) && sampleRate > 0
    ensures var a := AudioSubmissions(channels, sampleRate, format);
      && (forall i :: 0 <= i < |a| - 1 ==>
            a[i].numberOfFrames == AudioFrameSize
            && a[i + 1].timestamp == a[i].timestamp + AudioTimestamp(a[i].numberOfFrames, sampleRate))
      && (|a| > 0 ==> 1 <= a[|a| - 1].numberOfFrames <= AudioFrameSize)
  {
    var len := |channels[0]|;
    var a := AudioSubmissions(channels, sampleRate, format);
    forall i | 0 <= i < |a| - 1
      ensures a[i].numberOfFrames == AudioFrameSize
      ensures a[i + 1].timestamp == a[i].timestamp + AudioTimestamp(a[i].numberOfFrames, sampleRate)
    {
      ChunkLengths(len, i);
      AudioTimestampGapless(i * AudioFrameSize, AudioFrameSize, sampleRate);
      assert (i + 1) * AudioFrameSize == i * AudioFrameSize + AudioFrameSize;
    }
    if |a| > 0 {
      ChunkLengths(len, |a| - 1);
    }
  }

  /** Reading the audio submissions back in order reproduces every channel of
      the buffer whenever the declared layout agrees with the payload (the
      corrected format, or mono audio as written): each sample is submitted
      exactly once, in order, on its own channel. */
  lemma {:induction false} AudioStreamReproducesChannels<T>(channels: seq<seq<T>>, sampleRate: nat, format: SampleFormat, ch: nat)
    requires EqualLength(channels) && sampleRate > 0 && ch < |channels|
    ensures LayoutAgrees(format, |channels|) ==>
      Flatten(ChannelStream(AudioSubmissions(channels, sampleRate, format), ch)) == channels[ch]
  {
    var len := |channels[0]|;
    var a := AudioSubmissions(channels, sampleRate, format);
    var chunks := Chunks(len);
    if LayoutAgrees(format, |channels|) {
      ChunksChain(len);
      FlattenSlices(channels[ch], chunks);
      forall i | 0 <= i < |a| ensures Decode(a[i])[ch] == Slices(channels[ch], chunks)[i] {
        DecodeWhenLayoutAgrees(format, ChannelSlices(channels, chunks[i]), sampleRate, chunks[i].start);
      }
      assert ChannelStream(a, ch) == Slices(channels[ch], chunks);
      assert channels[ch][..len] == channels[ch];
    }
  }

  /** As written, a whole stereo run is read back scrambled: left [1, 2] and
      right [3, 4] come out of the audio track as [1, 3] and [2, 4]. */
  lemma StereoRunScrambledAsWritten()
    ensures var a := AudioSubmissions([[1, 2], [3, 4]], 48000, F32Planar);
      && Flatten(ChannelStream(a, 0)) == [1, 3]
      && Flatten(ChannelStream(a, 1)) == [2, 4]
  {
    var channels := [[1, 2], [3, 4]];
    var a := AudioSubmissions(channels, 48000, F32Planar);
    var chunks := Chunks(2);
    assert |chunks| == 1 && chunks[0] == Range(0, 2);
    assert channels[0][0..2] == channels[0] && channels[1][0..2] == channels[1];
    assert ChannelSlices(channels, chunks[0]) == channels;
    assert a[0] == MakeAudioFrame(F32Planar, channels, 48000, 0);
    StereoScrambledAsWritten();
    assert ChannelStream(a, 0) == [[1, 3]] && ChannelStream(a, 1) == [[2, 4]];
    assert Flatten([[1, 3]]) == Flatten([[1, 3]][..0]) + [1, 3];
    assert Flatten([[2, 4]]) == Flatten([[2, 4]][..0]) + [2, 4];
  }

  /** The number of frames submitted with a keyframe request. */
  function KeyFrameRequests<T>(v: seq<VideoSubmission<T>>): nat {
    if |v| == 0 then 0 else KeyFrameRequests(v[..|v| - 1]) + (if v[|v| - 1].keyFrame then 1 else 0)
  }

  lemma {:induction false} KeyFrameRequestsPrefix<T>(v: seq<VideoSubmission<T>>, n: nat)
    requires forall i :: 0 <= i < |v| ==> (v[i].keyFrame <==> IsKeyFrame(i))
    requires n <= |v|
    ensures KeyFrameRequests(v[..n]) == KeyFrameCount(n)
  {
    if n > 0 {
      assert v[..n][..n - 1] == v[..n - 1];
      KeyFrameRequestsPrefix(v, n - 1);
    }
  }

  /** A run of totalFrames video frames requests exactly ceil(totalFrames / 150) keyframes. */
  lemma {:induction false} VideoKeyFrameCount<T>(channel0: seq<T>, sampleRate: nat, fps: nat)
    requires sampleRate > 0
    ensures KeyFrameRequests(VideoSubmissions(channel0, sampleRate, fps))
         == (TotalFrames(|channel0|, sampleRate, fps) + KeyFrameInterval - 1) / KeyFrameInterval
  {
    var v := VideoSubmissions(channel0, sampleRate, fps);
    VideoStreamOrdered(channel0, sampleRate, fps);
    KeyFrameRequestsPrefix(v, |v|);
    assert v[..|v|] == v;
    KeyFrameCountClosedForm(|v|);
  }
}
