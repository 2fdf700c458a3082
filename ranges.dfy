/** Half-open sample ranges [start, end) and the facts about chains of them
    that both the video frame plan and the audio chunk plan rely on. */
module SampleRanges {

  datatype Range = Range(start: nat, end: nat) {
    predicate Contains(x: nat) {
      start <= x < end
    }

    function Length(): nat
      requires start <= end
    {
      end - start
    }
  }

  /** Every range is well formed and ends at or before `limit`. */
  ghost predicate WithinLimit(rs: seq<Range>, limit: nat) {
    forall i :: 0 <= i < |rs| ==> rs[i].start <= rs[i].end <= limit
  }

  /** The ranges form a chain that begins at `from`: each is well formed and
      starts exactly where the previous one ends. */
  ghost predicate Adjacent(rs: seq<Range>, from: nat) {
    && (|rs| > 0 ==> rs[0].start == from)
    && (forall i :: 0 <= i < |rs| ==> rs[i].start <= rs[i].end)
    && (forall i :: 0 <= i < |rs| - 1 ==> rs[i].end == rs[i + 1].start)
  }

  /** Where a chain that begins at `from` ends. */
  function Reach(rs: seq<Range>, from: nat): nat {
    if |rs| == 0 then from else rs[|rs| - 1].end
  }

  /** Some range of the plan contains sample x. */
  ghost predicate Covers(rs: seq<Range>, x: nat) {
    exists i :: 0 <= i < |rs| && rs[i].Contains(x)
  }

  lemma {:induction false} AdjacentPrefix(rs: seq<Range>, from: nat)
    requires Adjacent(rs, from) && |rs| > 0
    ensures Adjacent(rs[..|rs| - 1], from)
    ensures Reach(rs[..|rs| - 1], from) == rs[|rs| - 1].start
  {
  }

  /** Every range of a chain lies between its origin and its reach. */
  lemma {:induction false} AdjacentWithin(rs: seq<Range>, from: nat, i: nat)
    requires Adjacent(rs, from) && i < |rs|
    ensures from <= rs[i].start <= rs[i].end <= Reach(rs, from)
    decreases |rs|
  {
    var n := |rs| - 1;
    AdjacentPrefix(rs, from);
    if i < n {
      AdjacentWithin(rs[..n], from, i);
    } else if n > 0 {
      AdjacentWithin(rs[..n], from, n - 1);
    }
  }

  /** A chain that reaches no further than `limit` lies entirely below it. */
  lemma {:induction false} AdjacentWithinLimit(rs: seq<Range>, from: nat, limit: nat)
    requires Adjacent(rs, from) && Reach(rs, from) <= limit
    ensures WithinLimit(rs, limit)
  {
    forall i | 0 <= i < |rs| ensures rs[i].start <= rs[i].end <= limit {
      AdjacentWithin(rs, from, i);
    }
  }

  /** Ranges of a chain never overlap: an earlier one ends before a later one starts. */
  lemma {:induction false} AdjacentOrdered(rs: seq<Range>, from: nat, i: nat, j: nat)
    requires Adjacent(rs, from) && i < j < |rs|
    ensures rs[i].end <= rs[j].start
  {
    AdjacentPrefix(rs[..j + 1], from);
    AdjacentWithin(rs[..j], from, i);
  }

  /** A chain covers exactly the samples from its origin up to its reach. */
  lemma {:induction false} AdjacentCoverage(rs: seq<Range>, from: nat, x: nat)
    requires Adjacent(rs, from)
    ensures Covers(rs, x) <==> from <= x < Reach(rs, from)
    decreases |rs|
  {
    if Covers(rs, x) {
      var i :| 0 <= i < |rs| && rs[i].Contains(x);
      AdjacentWithin(rs, from, i);
    }
    if from <= x < Reach(rs, from) {
      var n := |rs| - 1;
      AdjacentPrefix(rs, from);
      if x < rs[n].start {
        AdjacentCoverage(rs[..n], from, x);
        var i :| 0 <= i < n && rs[..n][i].Contains(x);
        assert rs[i].Contains(x);
      } else {
        assert rs[n].Contains(x);
      }
    }
  }

  /** The pieces of `s` that the ranges select. */
  function Slices<T>(s: seq<T>, rs: seq<Range>): (r: seq<seq<T>>)
    requires WithinLimit(rs, |s|)
    ensures |r| == |rs|
    ensures forall i :: 0 <= i < |rs| ==> |r[i]| == rs[i].Length()
  {
    seq(|rs|, i requires 0 <= i < |rs| => s[rs[i].start..rs[i].end])
  }

  /** The concatenation of a sequence of pieces, in order. */
  function Flatten<T>(ss: seq<seq<T>>): seq<T> {
    if |ss| == 0 then [] else Flatten(ss[..|ss| - 1]) + ss[|ss| - 1]
  }

  /** Taking the slices of a chain that starts at 0 and putting them back
      together gives the prefix of `s` up to the chain's reach: no sample is
      lost, repeated or reordered. */
  lemma {:induction false} FlattenSlices<T>(s: seq<T>, rs: seq<Range>)
    requires Adjacent(rs, 0) && Reach(rs, 0) <= |s|
    ensures WithinLimit(rs, |s|)
    ensures Flatten(Slices(s, rs)) == s[..Reach(rs, 0)]
    decreases |rs|
  {
    AdjacentWithinLimit(rs, 0, |s|);
    if |rs| > 0 {
      var n := |rs| - 1;
      var ss := Slices(s, rs);
      AdjacentPrefix(rs, 0);
      FlattenSlices(s, rs[..n]);
      assert ss[..n] == Slices(s, rs[..n]);
      assert Flatten(ss) == Flatten(ss[..n]) + ss[n];
      assert ss[n] == s[rs[n].start..rs[n].end];
      assert s[..rs[n].start] + s[rs[n].start..rs[n].end] == s[..rs[n].end];
    }
  }

}
