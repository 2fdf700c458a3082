/** The AudioData unit that WaveformVideoGenerator.generateVideo builds for
    each audio chunk, and how a consumer reads its payload back into
    channels according to the declared sample format (WebCodecs). */
module AudioFrames {
  import opened Interleaving
  import opened Arith
  import opened Timing

  /** WebCodecs 'f32-planar' (each channel's samples in one plane, the planes
      one after the other) and 'f32' (samples interleaved across channels). */
  datatype SampleFormat = F32Planar | F32

  /** The fields of one AudioData init dictionary. */
  datatype AudioFrame<T> = AudioFrame(
    format: SampleFormat,
    sampleRate: nat,
    numberOfFrames: nat,
    numberOfChannels: nat,
    timestamp: real,
    data: seq<T>)

  /** The payload has one sample per frame and channel. */
  ghost predicate WellSized<T>(a: AudioFrame<T>) {
    a.numberOfChannels > 0 && |a.data| == a.numberOfFrames * a.numberOfChannels
  }

  /** Plane `ch` of a planar payload: the samples ch * frames .. ch * frames + frames. */
  function Plane<T>(data: seq<T>, ch: nat, channels: nat, frames: nat): (p: seq<T>)
    requires ch < channels && |data| == frames * channels
    ensures |p| == frames
  {
    var base := ch * frames;
    assert base + frames <= |data| by {
      MulMonotone(ch + 1, channels, frames);
      assert (ch + 1) * frames == base + frames;
    }
    data[base..base + frames]
  }

  /** The channels a consumer reads from a payload of `frames` sample frames,
      under the declared layout. */
  function ReadChannels<T>(format: SampleFormat, data: seq<T>, channels: nat, frames: nat): (r: seq<seq<T>>)
    requires channels > 0 && |data| == frames * channels
    ensures |r| == channels
    ensures forall ch :: 0 <= ch < channels ==> |r[ch]| == frames
  {
    match format
    case F32 =>
      assert |data| / channels == frames by { MulDivCancel(frames, channels); }
      Deinterleave(data, channels)
    case F32Planar =>
      seq(channels, (ch: int) requires 0 <= ch < channels => Plane(data, ch, channels, frames))
  }

  function Decode<T>(a: AudioFrame<T>): seq<seq<T>>
    requires WellSized(a)
  {
    ReadChannels(a.format, a.data, a.numberOfChannels, a.numberOfFrames)
  }

  /** Stereo or wider payloads are read back intact only when the declared
      format matches the interleaved layout; a single channel is laid out
      the same either way. */
  predicate LayoutAgrees(format: SampleFormat, channels: nat) {
    format == F32 || channels == 1
  }

  /** The unit built for one chunk: `format` is the declared sample format,
      and the payload is always the interleaved layout. The source declares
      F32Planar; F32 is the declaration that matches the payload. */
  function MakeAudioFrame<T>(format: SampleFormat, chunk: seq<seq<T>>, sampleRate: nat, start: nat): (a: AudioFrame<T>)
    requires EqualLength(chunk) && sampleRate > 0
    ensures WellSized(a)
    ensures a.format == format && a.numberOfChannels == |chunk| && a.numberOfFrames == |chunk[0]|
    ensures a.timestamp == AudioTimestamp(start, sampleRate)
  {
    AudioFrame(format, sampleRate, |chunk[0]|, |chunk|, AudioTimestamp(start, sampleRate), Interleave(chunk))
  }

  /** As written, a stereo chunk is read back scrambled: left [1, 2] and
      right [3, 4] come out as [1, 3] and [2, 4]. */
  lemma StereoScrambledAsWritten()
    ensures Decode(MakeAudioFrame(F32Planar, [[1, 2], [3, 4]], 48000, 0)) == [[1, 3], [2, 4]]
    ensures Decode(MakeAudioFrame(F32Planar, [[1, 2], [3, 4]], 48000, 0)) != [[1, 2], [3, 4]]
  {
    var chunk := [[1, 2], [3, 4]];
    var flat := Interleave(chunk);
    assert flat == [1, 3, 2, 4] by {
      InterleaveAt(chunk, 0, 0);
      InterleaveAt(chunk, 0, 1);
      InterleaveAt(chunk, 1, 0);
      InterleaveAt(chunk, 1, 1);
    }
    var d := Decode(MakeAudioFrame(F32Planar, chunk, 48000, 0));
    assert d[0] == Plane(flat, 0, 2, 2) == [1, 3];
    assert d[1] == Plane(flat, 1, 2, 2) == [2, 4];
  }

  /** With a single channel the two layouts coincide, so mono audio survives as written. */
  lemma {:induction false} MonoIntactAsWritten<T>(chunk: seq<seq<T>>, sampleRate: nat, start: nat)
    requires EqualLength(chunk) && |chunk| == 1 && sampleRate > 0
    ensures Decode(MakeAudioFrame(F32Planar, chunk, sampleRate, start)) == chunk
  {
    var d := Decode(MakeAudioFrame(F32Planar, chunk, sampleRate, start));
    var flat := Interleave(chunk);
    assert d[0] == Plane(flat, 0, 1, |chunk[0]|) == flat;
    forall i | 0 <= i < |chunk[0]| ensures flat[i] == chunk[0][i] {
      InterleaveAt(chunk, i, 0);
    }
    assert d[0] == chunk[0];
  }

  /** With the corrected format every channel of the chunk is read back intact. */
  lemma {:induction false} DecodeMakeAudioFrame<T>(chunk: seq<seq<T>>, sampleRate: nat, start: nat)
    requires EqualLength(chunk) && sampleRate > 0
    ensures Decode(MakeAudioFrame(F32, chunk, sampleRate, start)) == chunk
  {
    DeinterleaveInterleave(chunk);
  }

  /** Whenever the declared layout agrees with the payload (the corrected
      format, or mono audio as written), the chunk is read back intact. */
  lemma {:induction false} DecodeWhenLayoutAgrees<T>(format: SampleFormat, chunk: seq<seq<T>>, sampleRate: nat, start: nat)
    requires EqualLength(chunk) && sampleRate > 0
    ensures LayoutAgrees(format, |chunk|) ==> Decode(MakeAudioFrame(format, chunk, sampleRate, start)) == chunk
  {
    if format == F32 {
      DecodeMakeAudioFrame(chunk, sampleRate, start);
    } else if |chunk| == 1 {
      MonoIntactAsWritten(chunk, sampleRate, start);
    }
  }
}
