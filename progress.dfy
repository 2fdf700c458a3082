/** The percentages that WaveformVideoGenerator.generateVideo passes to
    updateProgress over one run: 0 and 5 during setup, one value per video
    frame rising to 75, 80 before the audio, one value every 100 audio
    chunks inside (80, 95], then 95 and finally 100. */
module Progress {

  /** Audio progress is reported on every chunk whose index is a multiple of this. */
  const AudioReportInterval: nat := 100

  /** Progress after video frame `frame` of `totalFrames`: 5 + (frame + 1) / totalFrames * 70. */
  function VideoFrameProgress(frame: nat, totalFrames: nat): (p: real)
    requires frame < totalFrames
    ensures 5.0 < p <= 75.0
    ensures p == 75.0 <==> frame == totalFrames - 1
  {
    var q := (frame + 1) as real / totalFrames as real;
    assert 0.0 < q <= 1.0 && (q == 1.0 <==> frame + 1 == totalFrames) by {
      assert q * totalFrames as real == (frame + 1) as real;
    }
    5.0 + q * 70.0
  }

  /** Progress after audio chunk `chunk` of `totalChunks`: 80 + (chunk + 1) / totalChunks * 15. */
  function AudioChunkProgress(chunk: nat, totalChunks: nat): (p: real)
    requires chunk < totalChunks
    ensures 80.0 < p <= 95.0
    ensures p == 95.0 <==> chunk == totalChunks - 1
  {
    var q := (chunk + 1) as real / totalChunks as real;
    assert 0.0 < q <= 1.0 && (q == 1.0 <==> chunk + 1 == totalChunks) by {
      assert q * totalChunks as real == (chunk + 1) as real;
    }
    80.0 + q * 15.0
  }

  lemma {:induction false} FractionMonotone(a: nat, b: nat, d: nat)
    requires a < b && d > 0
    ensures a as real / d as real < b as real / d as real
  {
    var x, y := a as real / d as real, b as real / d as real;
    assert (y - x) * d as real == (b - a) as real;
  }

  /** Video progress strictly increases from frame to frame. */
  lemma {:induction false} VideoProgressIncreases(f: nat, g: nat, totalFrames: nat)
    requires f < g < totalFrames
    ensures VideoFrameProgress(f, totalFrames) < VideoFrameProgress(g, totalFrames)
  {
    FractionMonotone(f + 1, g + 1, totalFrames);
  }

  /** Audio progress strictly increases from chunk to chunk. */
  lemma {:induction false} AudioProgressIncreases(i: nat, j: nat, totalChunks: nat)
    requires i < j < totalChunks
    ensures AudioChunkProgress(i, totalChunks) < AudioChunkProgress(j, totalChunks)
  {
    FractionMonotone(i + 1, j + 1, totalChunks);
  }

  /** The values reported by the video frame loop, one per frame. */
  function VideoProgressLog(totalFrames: nat): (r: seq<real>)
    ensures |r| == totalFrames
  {
    seq(totalFrames, (f: int) requires 0 <= f < totalFrames => VideoFrameProgress(f, totalFrames))
  }

  /** The values reported by audio chunks 0 .. n - 1: only chunks whose index
      is a multiple of 100 report. */
  function AudioProgressLog(n: nat, totalChunks: nat): (r: seq<real>)
    requires n <= totalChunks
    ensures |r| == (n + AudioReportInterval - 1) / AudioReportInterval
    ensures forall i :: 0 <= i < |r| ==> 80.0 < r[i] <= 95.0
  {
    if n == 0 then
      []
    else
      var earlier := AudioProgressLog(n - 1, totalChunks);
      if (n - 1) % AudioReportInterval == 0 then earlier + [AudioChunkProgress(n - 1, totalChunks)] else earlier
  }

  /** Every value reported in one run, in order. */
  function ProgressSchedule(totalFrames: nat, totalChunks: nat): (r: seq<real>)
    ensures |r| == totalFrames + (totalChunks + AudioReportInterval - 1) / AudioReportInterval + 5
    ensures r[0] == 0.0 && r[1] == 5.0 && r[|r| - 2] == 95.0 && r[|r| - 1] == 100.0
  {
    [0.0, 5.0] + VideoProgressLog(totalFrames) + [80.0]
      + AudioProgressLog(totalChunks, totalChunks) + [95.0, 100.0]
  }

  /** Chunks 0 .. n - 1 report ceil(n / 100) times, the r-th report being
      the progress of chunk 100 * r. */
  lemma {:induction false} AudioProgressLogClosedForm(n: nat, totalChunks: nat)
    requires n <= totalChunks
    ensures var reports := (n + AudioReportInterval - 1) / AudioReportInterval;
      AudioProgressLog(n, totalChunks)
      == seq(reports, (r: int) requires 0 <= r < reports =>
               AudioChunkProgress(AudioReportInterval * r, totalChunks))
  {
    if n > 0 {
      AudioProgressLogClosedForm(n - 1, totalChunks);
    }
  }

  ghost predicate NonDecreasing(s: seq<real>) {
    forall i, j :: 0 <= i <= j < |s| ==> s[i] <= s[j]
  }

  ghost predicate Within(s: seq<real>, lo: real, hi: real) {
    forall i :: 0 <= i < |s| ==> lo <= s[i] <= hi
  }

  /** Two non-decreasing runs, the first below `mid` and the second above it,
      join into one non-decreasing run. */
  lemma {:induction false} Glue(a: seq<real>, b: seq<real>, lo: real, mid: real, hi: real)
    requires lo <= mid <= hi
    requires NonDecreasing(a) && Within(a, lo, mid)
    requires NonDecreasing(b) && Within(b, mid, hi)
    ensures NonDecreasing(a + b) && Within(a + b, lo, hi)
  {
    var s := a + b;
    forall i, j | 0 <= i <= j < |s| ensures s[i] <= s[j] {
      if j < |a| {
        assert s[i] == a[i] && s[j] == a[j];
      } else if i >= |a| {
        assert s[i] == b[i - |a|] && s[j] == b[j - |a|];
      } else {
        assert s[i] == a[i] <= mid <= b[j - |a|] == s[j];
      }
    }
  }

  /** The video phase rises steadily from just above 5 and ends at exactly 75. */
  lemma {:induction false} VideoPhase(totalFrames: nat)
    ensures NonDecreasing(VideoProgressLog(totalFrames))
    ensures Within(VideoProgressLog(totalFrames), 5.0, 75.0)
    ensures totalFrames > 0 ==> VideoProgressLog(totalFrames)[totalFrames - 1] == 75.0
  {
    var v := VideoProgressLog(totalFrames);
    forall i, j | 0 <= i <= j < |v| ensures v[i] <= v[j] {
      if i < j {
        VideoProgressIncreases(i, j, totalFrames);
      }
    }
  }

  /** The audio phase reports ceil(totalChunks / 100) rising values, each in (80, 95]. */
  lemma {:induction false} AudioPhase(totalChunks: nat)
    ensures var a := AudioProgressLog(totalChunks, totalChunks);
      && NonDecreasing(a)
      && (forall i :: 0 <= i < |a| ==> 80.0 < a[i] <= 95.0)
      && |a| == (totalChunks + AudioReportInterval - 1) / AudioReportInterval
  {
    var a := AudioProgressLog(totalChunks, totalChunks);
    AudioProgressLogClosedForm(totalChunks, totalChunks);
    forall i, j | 0 <= i <= j < |a| ensures a[i] <= a[j] {
      if i < j {
        AudioProgressIncreases(AudioReportInterval * i, AudioReportInterval * j, totalChunks);
      }
    }
  }

  /** Over one run the reported progress starts at 0, never decreases, stays
      within [0, 100] and finishes at exactly 100. */
  lemma {:induction false} ScheduleMonotoneAndBounded(totalFrames: nat, totalChunks: nat)
    ensures var s := ProgressSchedule(totalFrames, totalChunks);
      && s[0] == 0.0 && s[|s| - 1] == 100.0
      && NonDecreasing(s)
      && Within(s, 0.0, 100.0)
  {
    var v := VideoProgressLog(totalFrames);
    var a := AudioProgressLog(totalChunks, totalChunks);
    VideoPhase(totalFrames);
    AudioPhase(totalChunks);
    Glue([0.0, 5.0], v, 0.0, 5.0, 75.0);
    Glue([0.0, 5.0] + v, [80.0], 0.0, 75.0, 80.0);
    Glue([0.0, 5.0] + v + [80.0], a, 0.0, 80.0, 95.0);
    Glue([0.0, 5.0] + v + [80.0] + a, [95.0, 100.0], 0.0, 95.0, 100.0);
  }
}
