/** WaveformVideoGenerator.interleaveChannels: planar channel data to the
    sample-major, channel-minor layout (sample i of channel ch at index
    i * channels + ch), and the inverse reading of that layout. */
module Interleaving {
  import opened Arith

  /** At least one channel, and every channel at least as long as channel 0:
      the method reads `channelData[0].length` samples from each channel. */
  ghost predicate ChannelsCover<T>(chs: seq<seq<T>>) {
    |chs| > 0 && forall ch :: 0 <= ch < |chs| ==> |chs[0]| <= |chs[ch]|
  }

  /** At least one channel, all of the same length (an AudioBuffer's channels). */
  ghost predicate EqualLength<T>(chs: seq<seq<T>>) {
    |chs| > 0 && forall ch :: 0 <= ch < |chs| ==> |chs[ch]| == |chs[0]|
  }

  /** Position (i, ch) of an m-by-n row-major layout is a unique index below m * n. */
  lemma {:induction false} RowMajorIndex(i: nat, ch: nat, n: nat, m: nat)
    requires i < m && ch < n
    ensures i * n + ch < m * n
    ensures (i * n + ch) / n == i && (i * n + ch) % n == ch
  {
    MulMonotone(i + 1, m, n);
    DivModUnique(i * n + ch, n, i, ch);
  }

  /** Every index below m * n is the position of some (k / n, k % n). */
  lemma {:induction false} SplitIndex(k: nat, n: nat, m: nat)
    requires n > 0 && k < m * n
    ensures k / n < m && k == (k / n) * n + k % n
  {
    if k / n >= m {
      MulMonotone(m, k / n, n);
    }
  }

  /** Sample frame i: sample i of every channel, in channel order. */
  function Row<T>(chs: seq<seq<T>>, i: nat): (r: seq<T>)
    requires ChannelsCover(chs) && i < |chs[0]|
    ensures |r| == |chs|
  {
    seq(|chs|, (ch: int) requires 0 <= ch < |chs| => chs[ch][i])
  }

  /** Sample frames 0 .. rows - 1, one after the other. */
  function InterleaveRows<T>(chs: seq<seq<T>>, rows: nat): (r: seq<T>)
    requires ChannelsCover(chs) && rows <= |chs[0]|
    ensures |r| == rows * |chs|
  {
    if rows == 0 then [] else InterleaveRows(chs, rows - 1) + Row(chs, rows - 1)
  }

  /** The interleaved layout of the first |chs[0]| samples of every channel. */
  function Interleave<T>(chs: seq<seq<T>>): (r: seq<T>)
    requires ChannelsCover(chs)
    ensures |r| == |chs[0]| * |chs|
  {
    InterleaveRows(chs, |chs[0]|)
  }

  lemma {:induction false} InterleaveRowsAt<T>(chs: seq<seq<T>>, rows: nat, i: nat, ch: nat)
    requires ChannelsCover(chs) && rows <= |chs[0]| && i < rows && ch < |chs|
    ensures i * |chs| + ch < |InterleaveRows(chs, rows)|
    ensures InterleaveRows(chs, rows)[i * |chs| + ch] == chs[ch][i]
  {
    var n := |chs|;
    RowMajorIndex(i, ch, n, rows);
    if i < rows - 1 {
      InterleaveRowsAt(chs, rows - 1, i, ch);
      RowMajorIndex(i, ch, n, rows - 1);
    } else {
      assert i * n + ch == (rows - 1) * n + ch;
    }
  }

  /** Sample i of channel ch lands at index i * channels + ch. */
  lemma {:induction false} InterleaveAt<T>(chs: seq<seq<T>>, i: nat, ch: nat)
    requires ChannelsCover(chs) && i < |chs[0]| && ch < |chs|
    ensures i * |chs| + ch < |Interleave(chs)|
    ensures Interleave(chs)[i * |chs| + ch] == chs[ch][i]
  {
    InterleaveRowsAt(chs, |chs[0]|, i, ch);
  }

  /** Index k of the layout holds sample k / channels of channel k % channels. */
  lemma {:induction false} InterleaveIndex<T>(chs: seq<seq<T>>, k: nat)
    requires ChannelsCover(chs) && k < |Interleave(chs)|
    ensures k / |chs| < |chs[0]| && k % |chs| < |chs|
    ensures Interleave(chs)[k] == chs[k % |chs|][k / |chs|]
  {
    SplitIndex(k, |chs|, |chs[0]|);
    InterleaveAt(chs, k / |chs|, k % |chs|);
  }

  /** Reads interleaved data back as `channels` planar channels; a trailing
      partial sample frame is ignored. */
  function Deinterleave<T>(flat: seq<T>, channels: nat): (r: seq<seq<T>>)
    requires channels > 0
    ensures |r| == channels
    ensures forall ch :: 0 <= ch < channels ==> |r[ch]| == |flat| / channels
  {
    var m := |flat| / channels;
    seq(channels, (ch: int) requires 0 <= ch < channels =>
      seq(m, (i: int) requires 0 <= i < m =>
        assert i * channels + ch < |flat| by {
          RowMajorIndex(i, ch, channels, m);
          MulMonotone(m, m, channels);
        }
        flat[i * channels + ch]))
  }

  /** De-interleaving an interleaved buffer gives back the channels. */
  lemma {:induction false} DeinterleaveInterleave<T>(chs: seq<seq<T>>)
    requires EqualLength(chs)
    ensures Deinterleave(Interleave(chs), |chs|) == chs
  {
    var n, m := |chs|, |chs[0]|;
    var d := Deinterleave(Interleave(chs), n);
    MulDivCancel(m, n);
    forall ch | 0 <= ch < n ensures d[ch] == chs[ch] {
      forall i | 0 <= i < m ensures d[ch][i] == chs[ch][i] {
        InterleaveAt(chs, i, ch);
      }
    }
  }

  /** Interleaving the channels read from a whole number of sample frames
      gives back the buffer. */
  lemma {:induction false} InterleaveDeinterleave<T>(flat: seq<T>, channels: nat)
    requires channels > 0 && |flat| % channels == 0
    ensures ChannelsCover(Deinterleave(flat, channels))
    ensures Interleave(Deinterleave(flat, channels)) == flat
  {
    var d := Deinterleave(flat, channels);
    var m := |flat| / channels;
    assert |flat| == m * channels;
    var r := Interleave(d);
    forall k | 0 <= k < |flat| ensures r[k] == flat[k] {
      SplitIndex(k, channels, m);
      InterleaveIndex(d, k);
    }
  }

  /** The interleaving loop: a fresh buffer of |channelData[0]| * channels
      samples, filled sample by sample and channel by channel. */
  method InterleaveChannels<T(0)>(channelData: seq<seq<T>>) returns (result: array<T>)
    requires ChannelsCover(channelData)
    ensures fresh(result)
    ensures result.Length == |channelData[0]| * |channelData|
    ensures result[..] == Interleave(channelData)
  {
    var n, m := |channelData|, |channelData[0]|;
    var total := m * n;
    result := new T[total];
    ghost var spec := Interleave(channelData);
    for i := 0 to m
      invariant i * n <= total
      invariant forall k :: 0 <= k < i * n ==> result[k] == spec[k]
    {
      var row := i * n;
      assert row + n == (i + 1) * n <= total by { MulMonotone(i + 1, m, n); }
      for ch := 0 to n
        invariant forall k :: 0 <= k < row + ch ==> result[k] == spec[k]
      {
        InterleaveAt(channelData, i, ch);
        result[row + ch] := channelData[ch][i];
      }
    }
    assert result[..] == spec;
  }
}
