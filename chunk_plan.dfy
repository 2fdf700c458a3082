/** The audio chunk plan of WaveformVideoGenerator.generateVideo: the buffer
    is cut into fixed chunks of 960 samples (one Opus frame), the last one
    clamped to the buffer's length. */
module ChunkPlan {
  import opened SampleRanges

  /** Samples per audio chunk. */
  const AudioFrameSize: nat := 960

  /** ceil(len / 960): the least chunk count whose chunks hold the whole buffer. */
  function TotalAudioFrames(len: nat): (r: nat)
    ensures r * AudioFrameSize >= len
    ensures r > 0 ==> (r - 1) * AudioFrameSize < len
    ensures r == 0 <==> len == 0
  {
    (len + AudioFrameSize - 1) / AudioFrameSize
  }

  /** The sample range of chunk i, clamped to the buffer. */
  function ChunkRange(i: nat, len: nat): (r: Range)
    ensures r.start == i * AudioFrameSize
    ensures r.end <= len && r.end <= r.start + AudioFrameSize
    ensures r.end == r.start + AudioFrameSize || r.end == len
  {
    var start := i * AudioFrameSize;
    Range(start, if start + AudioFrameSize < len then start + AudioFrameSize else len)
  }

  /** The whole plan: one range per chunk, in chunk order. */
  function Chunks(len: nat): (r: seq<Range>)
    ensures |r| == TotalAudioFrames(len)
  {
    seq(TotalAudioFrames(len), (i: int) requires 0 <= i => ChunkRange(i, len))
  }

  /** Every chunk but the last holds exactly 960 samples; the last holds
      between 1 and 960. */
  lemma {:induction false} ChunkLengths(len: nat, i: nat)
    requires i < TotalAudioFrames(len)
    ensures Chunks(len)[i].start == i * AudioFrameSize
    ensures Chunks(len)[i].start < Chunks(len)[i].end <= len
    ensures i < TotalAudioFrames(len) - 1 ==> Chunks(len)[i].Length() == AudioFrameSize
    ensures i == TotalAudioFrames(len) - 1 ==> 1 <= Chunks(len)[i].Length() <= AudioFrameSize
  {
    var total := TotalAudioFrames(len);
    if i < total - 1 {
      assert (i + 1) * AudioFrameSize <= (total - 1) * AudioFrameSize;
    }
  }

  /** The chunks form one chain from sample 0 to the end of the buffer. */
  lemma {:induction false} ChunksChain(len: nat)
    ensures Adjacent(Chunks(len), 0)
    ensures Reach(Chunks(len), 0) == len
    ensures WithinLimit(Chunks(len), len)
  {
    var rs := Chunks(len);
    var total := TotalAudioFrames(len);
    forall i | 0 <= i < total ensures rs[i].start <= rs[i].end <= len {
      ChunkLengths(len, i);
    }
    forall i | 0 <= i && i + 1 < total ensures rs[i].end == rs[i + 1].start {
      ChunkLengths(len, i);
      ChunkLengths(len, i + 1);
    }
    if total > 0 {
      assert rs[total - 1].end == len;
    }
  }

  /** Chunks never overlap: an earlier chunk ends at or before a later one starts. */
  lemma {:induction false} ChunksDisjoint(len: nat, i: nat, j: nat)
    requires i < j < TotalAudioFrames(len)
    ensures Chunks(len)[i].end <= Chunks(len)[j].start
  {
    ChunksChain(len);
    AdjacentOrdered(Chunks(len), 0, i, j);
  }

  /** Every sample of the buffer is in some chunk, and nothing else is. */
  lemma {:induction false} ChunksCoverage(len: nat, x: nat)
    ensures Covers(Chunks(len), x) <==> x < len
  {
    ChunksChain(len);
    AdjacentCoverage(Chunks(len), 0, x);
  }

  /** The chunk that holds sample x is chunk x / 960. */
  lemma {:induction false} ChunkOfSample(len: nat, x: nat)
    requires x < len
    ensures x / AudioFrameSize < TotalAudioFrames(len)
    ensures Chunks(len)[x / AudioFrameSize].Contains(x)
  {
    var i := x / AudioFrameSize;
    assert i * AudioFrameSize <= x < TotalAudioFrames(len) * AudioFrameSize;
    ChunkLengths(len, i);
  }
}
